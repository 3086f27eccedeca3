/** What every run of the draft hook keeps: publishing and slot ownership, isolation between wallets,
    detection of stale writers, and the conflict audit trail. */
module DraftTheorems {
  import opened Options
  import opened Drafts
  import opened DraftRuns

  // ---------- ownership and publishing ----------

  // Whatever storage held at first, in every reachable state: a guarded tab has no slot loaded, so saving writes
  // nothing; publishing is offered only in a session owned by the connected wallet, on the network it is connected to;
  // and a slot's draft is the wallet's own, unowned, or claimed by the other wallet that claimed it at first, and
  // without the secret prompt text unless its form data was there at first.
  lemma OwnedSessions(ws: seq<World>, steps: seq<Step>, i: nat, t: TabId)
    requires Trace(ws, steps) && Start(ws[0]) && i < |ws|
    ensures t in ws[i].tabs ==>
              var tab := ws[i].tabs[t];
              && (tab.guard.Some? ==>
                    forall token :: Persist(View(tab, ws[i].slots), tab.values, false, token).slots == ws[i].slots)
              && (tab.loadedKey.Some? ==> tab.loadedKey == tab.address == tab.owner)
              && (CanPublish(tab) ==> tab.owner == tab.address && tab.loadedKey == tab.address)
              && (CanPublish(tab) && tab.network.Some? ==> tab.ownerNetwork == tab.network)
    ensures forall key | key in ws[i].slots ::
              var d, first := ws[i].slots[key], Stored(ws[0].slots, key);
              && (d.owner.Some? && d.owner != Some(key) ==> first.Some? && d.owner == first.value.owner)
              && (d.formData.Some? && FullPrompt in d.formData.value ==>
                first.Some? && d.formData == first.value.formData)
  {
    Reachable(ws, steps, i);
  }

  // So where storage was in order at first, it stays so: own and unowned drafts only, none with a secret.
  lemma StorageStaysClean(ws: seq<World>, steps: seq<Step>, i: nat)
    requires Trace(ws, steps) && Start(ws[0]) && i < |ws| && SlotsKept(ws[0].slots, map[])
    ensures SlotsKept(ws[i].slots, map[])
  {
    Reachable(ws, steps, i);
  }

  // The user's explicit ways to leave a session: adopting it elsewhere, discarding it, or reloading.
  predicate LeavesSession(e: Event) {
    e.Open? || e.DiscardDraft? || e == Guarded(Adopt) || e == Guarded(DiscardProtected)
  }

  ghost predicate OnlyWrites(before: Slots, after: Slots, a: Wallet) {
    forall key :: key != a ==> Stored(after, key) == Stored(before, key)
  }

  // After a callback, the session is still a's and dirty, and storage changed in a's slot at most.
  ghost predicate KeepsSession(v: View, v': View, a: Wallet) {
    v'.tab.dirty && v'.tab.owner == Some(a) && OnlyWrites(v.slots, v'.slots, a)
  }

  lemma PersistKeepsSession(v: View, data: Form, force: bool, token: Revision, a: Wallet)
    requires v.tab.dirty && v.tab.owner == Some(a) && (v.tab.loadedKey.Some? ==> v.tab.loadedKey == Some(a))
    ensures KeepsSession(v, Persist(v, data, force, token), a)
  {
  }

  lemma ReconcileKeepsSession(v: View, token: Revision, a: Wallet)
    requires v.tab.dirty && v.tab.owner == Some(a)
    ensures KeepsSession(v, Reconcile(v, token), a)
  {
  }

  lemma ResolveKeepsSession(v: View, choice: Choice, token: Revision, a: Wallet)
    requires TabOk(v.tab) && v.tab.dirty && v.tab.owner == Some(a)
    ensures KeepsSession(v, ResolveConflict(v, choice, token), a)
  {
  }

  lemma StepKeepsSession(v: View, e: Event, token: Revision, a: Wallet)
    requires TabOk(v.tab) && v.tab.dirty && v.tab.owner == Some(a) && !LeavesSession(e)
    ensures KeepsSession(v, Handle(v, e, token), a)
  {
    match e
    case Context(address, n, values) =>
      ReconcileKeepsSession(v.(tab := Edit(v.tab, values).(address := address, network := n)), token, a);
    case Save => PersistKeepsSession(v, v.tab.values, false, token, a);
    case Resolve(choice) => ResolveKeepsSession(v, choice, token, a);
    case Type(_) =>
    case Guarded(_) =>
  }

  ghost predicate InSession(w: World, t: TabId, a: Wallet) {
    t in w.tabs && w.tabs[t].dirty && w.tabs[t].owner == Some(a)
  }

  lemma ApplyKeepsSession(w: World, s: Step, t: TabId, a: Wallet)
    requires Inv(w) && Enabled(w, s) && InSession(w, t, a)
    requires s.tab == t ==> !LeavesSession(s.event)
    ensures InSession(Apply(w, s), t, a)
    ensures s.tab == t ==> OnlyWrites(w.slots, Apply(w, s).slots, a)
  {
    if s.tab == t {
      StepKeepsSession(ViewOf(w, s), s.event, s.token, a);
    }
  }

  lemma RunKeepsSession(ws: seq<World>, steps: seq<Step>, i: nat, t: TabId, a: Wallet)
    requires Trace(ws, steps) && Start(ws[0]) && i < |steps| && InSession(ws[i], t, a)
    requires steps[i].tab == t ==> !LeavesSession(steps[i].event)
    ensures InSession(ws[i + 1], t, a)
    ensures steps[i].tab == t ==> OnlyWrites(ws[i].slots, ws[i + 1].slots, a)
  {
    Reachable(ws, steps, i);
    ApplyKeepsSession(ws[i], steps[i], t, a);
  }

  // Edits begun in wallet a's session stay in it through every wallet switch, disconnect and network
  // switch: until the user adopts, discards or reloads, that tab writes to no slot but a's.
  lemma {:induction false} SessionIsolation(ws: seq<World>, steps: seq<Step>, i: nat, j: nat, t: TabId, a: Wallet)
    requires Trace(ws, steps) && Start(ws[0]) && i <= j < |ws| && InSession(ws[i], t, a)
    requires forall k :: i <= k < j && steps[k].tab == t ==> !LeavesSession(steps[k].event)
    ensures InSession(ws[j], t, a)
    ensures forall k {:trigger steps[k]} :: i <= k < j && steps[k].tab == t ==>
              OnlyWrites(ws[k].slots, ws[k + 1].slots, a)
  {
    if i < j {
      SessionIsolation(ws, steps, i, j - 1, t, a);
      RunKeepsSession(ws, steps, j - 1, t, a);
    }
  }

  // Reconnecting flushes the kept edits into the owner's slot, over whatever draft is there by then, unless that
  // draft belongs to another wallet or network; then the edits stay in the form and the slot is left alone.
  lemma ReconnectFlushes(w: World, s: Step, a: Wallet)
    requires Inv(w) && Enabled(w, s) && s.event.Context? && s.event.address == Some(a)
    requires var tab := w.tabs[s.tab];
             && tab.dirty && tab.owner == Some(a) && tab.address != Some(a)
             && HasDraftContent(StripSensitive(s.event.values))
    ensures var tab' := Apply(w, s).tabs[s.tab];
            var stored := Stored(w.slots, a);
            var safe := StripSensitive(s.event.values);
            if OfOthers(stored, a, s.event.network)
            then
              && Apply(w, s).slots == w.slots && tab'.values == s.event.values && tab'.guard.Some?
              && tab'.guard.value.kind == if stored.value.owner.Some? && stored.value.owner != Some(a)
                                          then WalletChanged else NetworkChanged
            else
              && Stored(Apply(w, s).slots, a)
                 == Some(Draft(Some(s.token), Some(safe), StoredAudit(w.slots, a), Some(a), s.event.network))
              && tab'.guard.None? && tab'.lastKnown == Some(s.token)
              && (stored.Some? && stored.value.revision.Some? ==> ReplacesUnseen(w, s))
  {
    if FlushesBlindly(w, s) {
      FlushOverwrites(w, s);
    }
  }

  // A stored draft that is another wallet's, or of another network than the connected one.
  predicate OfOthers(stored: Option<Draft>, a: Wallet, network: Option<Network>) {
    stored.Some? &&
    (|| (stored.value.owner.Some? && stored.value.owner != Some(a))
     || (stored.value.network.Some? && network.Some? && stored.value.network != network))
  }

  // ---------- the conflict audit trail ----------

  lemma AuditAfter(v: View, e: Event, token: Revision, key: Wallet)
    requires key in v.slots && key in Handle(v, e, token).slots
    ensures var audit := Handle(v, e, token).slots[key].audit;
            && v.slots[key].audit <= audit
            && (audit == v.slots[key].audit
                || (v.tab.address == Some(key) && v.tab.conflict.Some? && e.Resolve?
                    && audit == v.slots[key].audit
                         + [AuditEntry(v.tab.conflict.value.local, v.tab.conflict.value.stored, e.choice)]))
  {
  }

  lemma AuditStep(w: World, s: Step, key: Wallet)
    requires Enabled(w, s) && key in w.slots && key in Apply(w, s).slots
    ensures w.slots[key].audit <= Apply(w, s).slots[key].audit
  {
    AuditAfter(ViewOf(w, s), s.event, s.token, key);
  }

  // While a slot is never removed its audit trail only grows by appending.
  lemma {:induction false} AuditOnlyAppends(ws: seq<World>, steps: seq<Step>, i: nat, j: nat, key: Wallet)
    requires Trace(ws, steps) && i <= j < |ws|
    requires forall k :: i <= k <= j ==> key in ws[k].slots
    ensures ws[i].slots[key].audit <= ws[j].slots[key].audit
  {
    if i < j {
      AuditOnlyAppends(ws, steps, i, j - 1, key);
      assert key in ws[j - 1].slots && key in ws[j].slots;
      AuditStep(ws[j - 1], steps[j - 1], key);
    }
  }

  // ---------- what a revision token stands for ----------

  ghost predicate SameToken(w1: World, w2: World, key: Wallet) {
    && key in w1.slots && key in w2.slots
    && w1.slots[key].revision.Some? && w1.slots[key].revision == w2.slots[key].revision
  }

  ghost predicate CoherentUpTo(ws: seq<World>, n: nat)
    requires n < |ws|
  {
    forall i, j, key :: 0 <= i <= j <= n && SameToken(ws[i], ws[j], key) ==>
                          ws[i].slots[key].formData == ws[j].slots[key].formData
  }

  // Over the whole run, one token never stands for two different contents of a slot.
  ghost predicate Coherent(ws: seq<World>) {
    |ws| > 0 && CoherentUpTo(ws, |ws| - 1)
  }

  // Step j resolves a conflict in favour of the stored side.
  ghost predicate KeepsRemote(ws: seq<World>, steps: seq<Step>, j: nat)
    requires Trace(ws, steps) && j < |steps|
  {
    && steps[j].event == Resolve(KeepRemote)
    && ws[j].tabs[steps[j].tab].address.Some?
    && ws[j].tabs[steps[j].tab].conflict.Some?
    && ws[j].tabs[steps[j].tab].conflict.value.stored.Some?
  }

  function StoredForm(slots: Slots, key: Wallet): Option<Form> {
    if key in slots then slots[key].formData else None
  }

  // A keep-remote step finds in the slot the form data every earlier holder of the conflict's revision saw.
  ghost predicate Faithful(ws: seq<World>, steps: seq<Step>, j: nat)
    requires Trace(ws, steps) && j < |steps|
  {
    KeepsRemote(ws, steps, j) ==>
      var tab := ws[j].tabs[steps[j].tab];
      var key := tab.address.value;
      forall i :: 0 <= i <= j && key in ws[i].slots && ws[i].slots[key].revision == tab.conflict.value.stored ==>
                    ws[i].slots[key].formData == StoredForm(ws[j].slots, key)
  }

  // A keep-remote step finds the slot still under the conflict's revision: nobody wrote since detection.
  ghost predicate StillDetected(ws: seq<World>, steps: seq<Step>, j: nat)
    requires Trace(ws, steps) && j < |steps|
  {
    KeepsRemote(ws, steps, j) ==>
      var tab := ws[j].tabs[steps[j].tab];
      StoredRevision(ws[j].slots, tab.address.value) == tab.conflict.value.stored
  }

  lemma FaithfulExtends(ws: seq<World>, steps: seq<Step>, n: nat)
    requires Trace(ws, steps) && Start(ws[0]) && n < |steps|
    requires CoherentUpTo(ws, n) && Faithful(ws, steps, n)
    ensures CoherentUpTo(ws, n + 1)
  {
    var s := steps[n];
    forall i, key | 0 <= i <= n && SameToken(ws[i], ws[n + 1], key)
      ensures ws[i].slots[key].formData == ws[n + 1].slots[key].formData
    {
      Reachable(ws, steps, n);
      IssuedGrows(ws, steps, i, n);
      Reachable(ws, steps, i);
      SlotAfter(ViewOf(ws[n], s), s.event, s.token, key);
      if Untouched(ViewOf(ws[n], s), key, ws[n + 1].slots[key]) {
        assert SameToken(ws[i], ws[n], key);
      }
    }
  }

  lemma {:induction false} IssuedGrows(ws: seq<World>, steps: seq<Step>, i: nat, j: nat)
    requires Trace(ws, steps) && i <= j < |ws|
    ensures ws[i].issued <= ws[j].issued
  {
    if i < j {
      IssuedGrows(ws, steps, i, j - 1);
    }
  }

  // A save that finds another revision in the slot than the one it is based on.
  predicate RaisesConflict(w: World, s: Step)
    requires Enabled(w, s)
  {
    s.event.Save? && CanWrite(ViewOf(w, s).tab, ViewOf(w, s).tab.values) && IsStale(ViewOf(w, s))
  }

  // Step d is tab t's last one before state j that raised a conflict.
  ghost predicate LastRaise(ws: seq<World>, steps: seq<Step>, d: nat, j: nat, t: TabId)
    requires Trace(ws, steps) && j < |ws|
  {
    && d < j && steps[d].tab == t && RaisesConflict(ws[d], steps[d])
    && forall k :: d < k < j && steps[k].tab == t ==> !RaisesConflict(ws[k], steps[k])
  }

  // Step d raised the conflict that step j's tab has.
  ghost predicate DetectedAt(ws: seq<World>, steps: seq<Step>, d: nat, j: nat)
    requires Trace(ws, steps) && j < |steps|
  {
    LastRaise(ws, steps, d, j, steps[j].tab)
  }

  // A keep-remote step finds the form data that was in the slot when its conflict was raised.
  ghost predicate FindsDetected(ws: seq<World>, steps: seq<Step>, j: nat)
    requires Trace(ws, steps) && j < |steps|
  {
    KeepsRemote(ws, steps, j) ==>
      var key := ws[j].tabs[steps[j].tab].address.value;
      forall d: nat :: DetectedAt(ws, steps, d, j) ==> StoredForm(ws[d].slots, key) == StoredForm(ws[j].slots, key)
  }

  lemma ConflictSurvives(v: View, e: Event, token: Revision)
    requires Handle(v, e, token).tab.conflict.Some?
    requires !(e.Save? && CanWrite(v.tab, v.tab.values) && IsStale(v))
    ensures var t := Handle(v, e, token).tab;
            t.conflict == v.tab.conflict && t.address == v.tab.address && t.pending == v.tab.pending && !e.Open?
  {
  }

  // A tab with a conflict raised it at some step, at the wallet it is still connected to, and the conflict names the
  // revision that was in the slot then.
  lemma {:induction false} ConflictWasRaised(ws: seq<World>, steps: seq<Step>, j: nat, t: TabId) returns (d: nat)
    requires Trace(ws, steps) && Start(ws[0]) && j < |ws| && t in ws[j].tabs && ws[j].tabs[t].conflict.Some?
    ensures LastRaise(ws, steps, d, j, t)
    ensures t in ws[d].tabs && ws[j].tabs[t].address == ws[d].tabs[t].address && ws[j].tabs[t].address.Some?
    ensures ws[j].tabs[t].conflict.value.stored == StoredRevision(ws[d].slots, ws[j].tabs[t].address.value)
    ensures ws[j].tabs[t].pending == Some(StripSensitive(ws[d].tabs[t].values))
  {
    if RaisesAt(ws, steps, j - 1, t) {
      RaisedHere(ws[j - 1], steps[j - 1]);
      d := j - 1;
    } else {
      ConflictStep(ws, steps, j - 1, t);
      d := ConflictWasRaised(ws, steps, j - 1, t);
      RaiseStaysLast(ws, steps, d, j - 1, t);
    }
  }

  ghost predicate RaisesAt(ws: seq<World>, steps: seq<Step>, i: nat, t: TabId)
    requires Trace(ws, steps) && i < |steps|
  {
    steps[i].tab == t && RaisesConflict(ws[i], steps[i])
  }

  lemma ConflictStep(ws: seq<World>, steps: seq<Step>, i: nat, t: TabId)
    requires Trace(ws, steps) && i < |steps| && t in ws[i + 1].tabs && ws[i + 1].tabs[t].conflict.Some?
    requires !RaisesAt(ws, steps, i, t)
    ensures t in ws[i].tabs && ws[i].tabs[t].conflict == ws[i + 1].tabs[t].conflict
    ensures ws[i].tabs[t].address == ws[i + 1].tabs[t].address && ws[i].tabs[t].pending == ws[i + 1].tabs[t].pending
  {
    ConflictStays(ws[i], steps[i], t);
  }

  lemma RaiseStaysLast(ws: seq<World>, steps: seq<Step>, d: nat, i: nat, t: TabId)
    requires Trace(ws, steps) && i < |steps| && LastRaise(ws, steps, d, i, t) && !RaisesAt(ws, steps, i, t)
    ensures LastRaise(ws, steps, d, i + 1, t)
  {
  }

  lemma RaisedHere(w: World, s: Step)
    requires Enabled(w, s) && RaisesConflict(w, s)
    ensures var tab, tab' := w.tabs[s.tab], Apply(w, s).tabs[s.tab];
            && tab'.address == tab.address && tab.address.Some? && tab'.conflict.Some?
            && tab'.conflict.value.stored == StoredRevision(w.slots, tab.address.value)
            && tab'.pending == Some(StripSensitive(tab.values))
  {
  }

  lemma ConflictStays(w: World, s: Step, t: TabId)
    requires Enabled(w, s) && t in Apply(w, s).tabs && Apply(w, s).tabs[t].conflict.Some?
    requires !(s.tab == t && RaisesConflict(w, s))
    ensures t in w.tabs && w.tabs[t].conflict == Apply(w, s).tabs[t].conflict
    ensures w.tabs[t].address == Apply(w, s).tabs[t].address && w.tabs[t].pending == Apply(w, s).tabs[t].pending
  {
    if s.tab == t {
      ConflictSurvives(ViewOf(w, s), s.event, s.token);
    }
  }

  lemma DetectedIsFaithful(ws: seq<World>, steps: seq<Step>, j: nat)
    requires Trace(ws, steps) && Start(ws[0]) && j < |steps|
    requires CoherentUpTo(ws, j) && FindsDetected(ws, steps, j)
    ensures Faithful(ws, steps, j)
  {
    if KeepsRemote(ws, steps, j) {
      var t := steps[j].tab;
      var key := ws[j].tabs[t].address.value;
      var d := OnlyDetection(ws, steps, j);
      forall i | 0 <= i <= j && key in ws[i].slots && ws[i].slots[key].revision == ws[j].tabs[t].conflict.value.stored
        ensures ws[i].slots[key].formData == StoredForm(ws[j].slots, key)
      {
        assert SameToken(ws[i], ws[d], key) && SameToken(ws[d], ws[i], key);
      }
    }
  }

  lemma {:induction false} DetectedIsCoherent(ws: seq<World>, steps: seq<Step>, n: nat)
    requires Trace(ws, steps) && Start(ws[0]) && n < |ws|
    requires forall j :: 0 <= j < n ==> FindsDetected(ws, steps, j)
    ensures CoherentUpTo(ws, n)
  {
    if n > 0 {
      DetectedIsCoherent(ws, steps, n - 1);
      DetectedIsFaithful(ws, steps, n - 1);
      FaithfulExtends(ws, steps, n - 1);
    }
  }

  // A token names one content throughout a run exactly when every keep-remote resolution finds in the slot the form
  // data that was there when its conflict was raised.
  lemma TokensNameContents(ws: seq<World>, steps: seq<Step>)
    requires Trace(ws, steps) && Start(ws[0])
    ensures Coherent(ws) <==> forall j :: 0 <= j < |steps| ==> FindsDetected(ws, steps, j)
  {
    if forall j :: 0 <= j < |steps| ==> FindsDetected(ws, steps, j) {
      DetectedIsCoherent(ws, steps, |steps|);
    }
    if Coherent(ws) {
      forall j | 0 <= j < |steps|
        ensures FindsDetected(ws, steps, j)
      {
        CoherentFindsDetected(ws, steps, j);
      }
    }
  }

  // The one step that raised the conflict step j resolves.
  lemma OnlyDetection(ws: seq<World>, steps: seq<Step>, j: nat) returns (d: nat)
    requires Trace(ws, steps) && Start(ws[0]) && j < |steps| && KeepsRemote(ws, steps, j)
    ensures DetectedAt(ws, steps, d, j) && forall e: nat :: DetectedAt(ws, steps, e, j) ==> e == d
    ensures var tab := ws[j].tabs[steps[j].tab];
            StoredRevision(ws[d].slots, tab.address.value) == tab.conflict.value.stored
  {
    d := ConflictWasRaised(ws, steps, j, steps[j].tab);
    forall e: nat | DetectedAt(ws, steps, e, j)
      ensures e == d
    {
    }
  }

  lemma CoherentFindsDetected(ws: seq<World>, steps: seq<Step>, j: nat)
    requires Trace(ws, steps) && Start(ws[0]) && Coherent(ws) && j < |steps|
    ensures FindsDetected(ws, steps, j)
  {
    if KeepsRemote(ws, steps, j) {
      var key := ws[j].tabs[steps[j].tab].address.value;
      var d := OnlyDetection(ws, steps, j);
      KeptRemote(ws[j], steps[j], key);
      assert SameToken(ws[d], ws[j + 1], key);
    }
  }

  lemma KeptRemote(w: World, s: Step, key: Wallet)
    requires Enabled(w, s) && s.event == Resolve(KeepRemote) && w.tabs[s.tab].address == Some(key)
    requires w.tabs[s.tab].conflict.Some? && w.tabs[s.tab].conflict.value.stored.Some?
    ensures key in Apply(w, s).slots && Apply(w, s).slots[key].formData == StoredForm(w.slots, key)
    ensures Apply(w, s).slots[key].revision == w.tabs[s.tab].conflict.value.stored
  {
  }

  // In particular it does whenever nobody writes between a detection and its keep-remote resolution.
  lemma {:induction false} UndisturbedIsCoherent(ws: seq<World>, steps: seq<Step>, n: nat)
    requires Trace(ws, steps) && Start(ws[0]) && n < |ws|
    requires forall j :: 0 <= j < |steps| ==> StillDetected(ws, steps, j)
    ensures CoherentUpTo(ws, n)
  {
    if n > 0 {
      UndisturbedIsCoherent(ws, steps, n - 1);
      StillDetectedFinds(ws, steps, n - 1);
      DetectedIsFaithful(ws, steps, n - 1);
      FaithfulExtends(ws, steps, n - 1);
    }
  }

  lemma StillDetectedFinds(ws: seq<World>, steps: seq<Step>, j: nat)
    requires Trace(ws, steps) && Start(ws[0]) && j < |steps|
    requires CoherentUpTo(ws, j) && StillDetected(ws, steps, j)
    ensures FindsDetected(ws, steps, j)
  {
    if KeepsRemote(ws, steps, j) {
      var key := ws[j].tabs[steps[j].tab].address.value;
      var d := OnlyDetection(ws, steps, j);
      assert SameToken(ws[d], ws[j], key);
    }
  }

  // ---------- no lost update ----------

  // In state i tab t holds revision r of slot key: it has just loaded, written or adopted it.
  ghost predicate Holds(w: World, t: TabId, key: Wallet, r: Revision) {
    && t in w.tabs && w.tabs[t].lastKnown == Some(r) && w.tabs[t].loadedKey == Some(key)
    && StoredRevision(w.slots, key) == Some(r)
  }

  // After a callback the base revision is the tab's old one, or the one now in the slot it has loaded.
  ghost predicate BaseKept(before: Tab, v': View) {
    v'.tab.lastKnown.Some? ==>
      || (v'.tab.lastKnown == before.lastKnown && v'.tab.loadedKey == before.loadedKey)
      || (v'.tab.loadedKey.Some? && StoredRevision(v'.slots, v'.tab.loadedKey.value) == v'.tab.lastKnown)
  }

  lemma PersistBase(v: View, data: Form, force: bool, token: Revision)
    requires v.tab.lastKnown.Some? ==> v.tab.loadedKey.Some?
    ensures BaseKept(v.tab, Persist(v, data, force, token))
  {
  }

  lemma BindBase(v: View, token: Revision)
    requires v.tab.address.Some? && v.tab.loadedKey == v.tab.address
    requires v.tab.lastKnown == StoredRevision(v.slots, v.tab.address.value)
    ensures BaseKept(BLANK_TAB, Persist(v, v.tab.values, true, token))
  {
  }

  lemma ReconcileBase(v: View, token: Revision)
    ensures BaseKept(BLANK_TAB, Reconcile(v, token))
  {
    var tab := v.tab.(conflict := None, lastKnown := None);
    if tab.address.Some? && tab.dirty && tab.owner == tab.address {
      BindBase(v.(tab := Bind(tab, tab.address, tab.network, StoredRevision(v.slots, tab.address.value))), token);
    }
  }

  lemma ResolveGuardBase(v: View, action: Action, token: Revision)
    ensures BaseKept(v.tab, ResolveGuard(v, action, token))
  {
    if v.tab.guard.Some? && action == Adopt && v.tab.address.Some? {
      var revision := StoredRevision(v.slots, v.tab.address.value);
      BindBase(v.(tab := Bind(v.tab, v.tab.address, v.tab.network, revision).(pending := None, conflict := None)),
        token);
    }
  }

  lemma BaseAfter(v: View, e: Event, token: Revision)
    requires e.Open? || TabOk(v.tab)
    ensures BaseKept(if e.Open? then BLANK_TAB else v.tab, Handle(v, e, token))
  {
    match e
    case Open(a, n, values) =>
      ReconcileBase(View(Edit(BLANK_TAB.(address := a, network := n), values), v.slots), token);
    case Context(a, n, values) =>
      ReconcileBase(v.(tab := Edit(v.tab, values).(address := a, network := n)), token);
    case Save => PersistBase(v, v.tab.values, false, token);
    case Guarded(action) => ResolveGuardBase(v, action, token);
    case _ =>
  }

  // A tab's base revision is always one it itself took from the slot it has loaded.
  lemma {:induction false} BaseWasHeld(ws: seq<World>, steps: seq<Step>, j: nat, t: TabId) returns (i: nat)
    requires Trace(ws, steps) && Start(ws[0]) && j < |ws|
    requires t in ws[j].tabs && ws[j].tabs[t].lastKnown.Some?
    ensures i <= j && ws[j].tabs[t].loadedKey.Some?
    ensures Holds(ws[i], t, ws[j].tabs[t].loadedKey.value, ws[j].tabs[t].lastKnown.value)
  {
    Reachable(ws, steps, j);
    i := j;
    if !Holds(ws[j], t, ws[j].tabs[t].loadedKey.value, ws[j].tabs[t].lastKnown.value) {
      Reachable(ws, steps, j - 1);
      if steps[j - 1].tab == t {
        BaseAfter(ViewOf(ws[j - 1], steps[j - 1]), steps[j - 1].event, steps[j - 1].token);
      }
      i := BaseWasHeld(ws, steps, j - 1, t);
    }
  }

  // An unforced save by a tab with a base revision r either finds the slot without a revision, or finds r
  // itself, or leaves storage alone and raises a conflict naming both revisions. When it replaces a draft,
  // that draft has the content the tab itself once loaded, wrote or adopted.
  lemma NoLostUpdate(ws: seq<World>, steps: seq<Step>, j: nat) returns (i: nat)
    requires Trace(ws, steps) && Start(ws[0]) && j < |steps| && steps[j].event == Save
    requires ws[j].tabs[steps[j].tab].lastKnown.Some?
    ensures var tab := ws[j].tabs[steps[j].tab];
            var r := tab.lastKnown.value;
            tab.address.Some? && var key := tab.address.value;
            var found := StoredRevision(ws[j].slots, key);
            && i <= j && Holds(ws[i], steps[j].tab, key, r)
            && (ws[j + 1].slots != ws[j].slots ==> found.None? || found == Some(r))
            && (ws[j + 1].slots == ws[j].slots && HasDraftContent(StripSensitive(tab.values)) ==>
                  && found.Some? && found != Some(r)
                  && ws[j + 1].tabs[steps[j].tab].conflict == Some(Conflict(Some(r), found)))
            && (Coherent(ws) && ws[j + 1].slots != ws[j].slots && found.Some? ==>
                  ws[i].slots[key].formData == ws[j].slots[key].formData)
  {
    i := BaseWasHeld(ws, steps, j, steps[j].tab);
    Reachable(ws, steps, j);
    var tab := ws[j].tabs[steps[j].tab];
    var key := tab.address.value;
    var r := tab.lastKnown.value;
    var v := ViewOf(ws[j], steps[j]);
    assert ws[j + 1] == Apply(ws[j], steps[j]);
    if HasDraftContent(StripSensitive(tab.values)) && !IsStale(v) {
      assert ws[j + 1].slots[key].revision == Some(steps[j].token);
      assert StoredRevision(ws[j].slots, key) != Some(steps[j].token);
    }
    if Coherent(ws) && StoredRevision(ws[j].slots, key) == Some(r) {
      assert SameToken(ws[i], ws[j], key);
    }
  }

  // ---------- where detection does not reach ----------

  // The user's explicit decisions about a stored draft, on which overwriting or removing it is what was asked for.
  predicate Decides(e: Event) {
    e.Resolve? || e.Guarded? || e.DiscardDraft?
  }

  function BaseOf(w: World, s: Step): Option<Revision>
    requires Enabled(w, s)
  {
    ViewOf(w, s).tab.lastKnown
  }

  // The step replaces or removes a stored draft whose revision is not the tab's base.
  ghost predicate ReplacesUnseen(w: World, s: Step)
    requires Enabled(w, s)
  {
    exists key :: key in w.slots && w.slots[key].revision.Some? && w.slots[key].revision != BaseOf(w, s)
                  && Stored(Apply(w, s).slots, key) != Stored(w.slots, key)
  }

  // A save with content by a tab without a base revision, over a slot with one.
  predicate SavesBlindly(w: World, s: Step)
    requires Enabled(w, s)
  {
    var tab := ViewOf(w, s).tab;
    && s.event.Save? && CanWrite(tab, tab.values) && tab.lastKnown.None?
    && StoredRevision(w.slots, tab.address.value).Some?
  }

  // A wallet or network change that flushes the session's own edits by force: the session is the connected
  // wallet's, the stored draft is of no other wallet or network, and its revision is not the tab's base.
  predicate FlushesBlindly(w: World, s: Step)
    requires Enabled(w, s)
  {
    var tab := ViewOf(w, s).tab;
    && s.event.Context? && s.event.address.Some? && (s.event.address != tab.address || s.event.network != tab.network)
    && HasDraftContent(StripSensitive(s.event.values)) && tab.owner == s.event.address
    && var stored := Stored(w.slots, s.event.address.value);
       && stored.Some? && stored.value.revision.Some? && stored.value.revision != tab.lastKnown
       && (stored.value.owner.None? || stored.value.owner == s.event.address)
       && (stored.value.network.None? || s.event.network.None? || stored.value.network == s.event.network)
  }

  // Writing a slot under a fresh token changes it and it alone.
  lemma FreshWrite(w: World, s: Step, key: Wallet, d: Draft)
    requires Inv(w) && Enabled(w, s) && d.revision == Some(s.token) && Apply(w, s).slots == w.slots[key := d]
    ensures forall k :: Stored(Apply(w, s).slots, k) != Stored(w.slots, k) <==> k == key
  {
    assert key in w.slots ==> w.slots[key].revision != Some(s.token);
  }

  lemma SaveOverwrites(w: World, s: Step)
    requires Inv(w) && Enabled(w, s) && s.event == Save
    ensures ReplacesUnseen(w, s) <==> SavesBlindly(w, s)
    ensures Apply(w, s).slots == w.slots || Apply(w, s).tabs[s.tab].conflict == ViewOf(w, s).tab.conflict
  {
    var v := ViewOf(w, s);
    if CanWrite(v.tab, v.tab.values) && !IsStale(v) {
      var key := v.tab.address.value;
      FreshWrite(w, s, key, Apply(w, s).slots[key]);
    }
  }

  lemma FlushOverwrites(w: World, s: Step)
    requires Inv(w) && Enabled(w, s) && FlushesBlindly(w, s)
    ensures ReplacesUnseen(w, s) && Apply(w, s).tabs[s.tab].conflict.None?
  {
    var key := s.event.address.value;
    var d := Apply(w, s).slots[key];
    assert d.revision == Some(s.token);
    assert w.slots[key].revision != Some(s.token);
  }

  lemma ContextOverwrites(w: World, s: Step)
    requires Inv(w) && Enabled(w, s) && s.event.Context? && ReplacesUnseen(w, s)
    ensures FlushesBlindly(w, s)
  {
    assert Apply(w, s).slots != w.slots;
    var key := s.event.address.value;
    assert forall k :: k != key ==> Stored(Apply(w, s).slots, k) == Stored(w.slots, k);
  }

  lemma OpenWritesNothing(w: World, s: Step)
    requires Enabled(w, s) && s.event.Open?
    ensures Apply(w, s).slots == w.slots
  {
  }

  // The exact gap in the detection, over every callback that is no explicit decision: a stored revision other than
  // the tab's base is replaced if and only if the tab saves or flushes blindly, and then no conflict is raised.
  lemma UnseenOverwriteExactly(w: World, s: Step)
    requires Inv(w) && Enabled(w, s) && !Decides(s.event)
    ensures ReplacesUnseen(w, s) <==> SavesBlindly(w, s) || FlushesBlindly(w, s)
    ensures ReplacesUnseen(w, s) ==>
              Apply(w, s).tabs[s.tab].conflict.None? || Apply(w, s).tabs[s.tab].conflict == ViewOf(w, s).tab.conflict
  {
    match s.event
    case Save => SaveOverwrites(w, s);
    case Context(_, _, _) =>
      if FlushesBlindly(w, s) {
        FlushOverwrites(w, s);
      } else if ReplacesUnseen(w, s) {
        ContextOverwrites(w, s);
      }
    case Open(_, _, _) => OpenWritesNothing(w, s);
    case Type(_) =>
  }
}
