/** Whole runs of any number of tabs over one storage: any interleaving of opening, wallet and network
    switches, edits, saves, discards, conflict resolutions and guard resolutions. */
module DraftRuns {
  import opened Options
  import opened Drafts

  type TabId = nat

  // issued: every revision token in existence; randomUUID returns one outside it.
  datatype World = World(slots: Slots, tabs: map<TabId, Tab>, issued: set<Revision>)
  datatype Step = Step(tab: TabId, event: Event, token: Revision)

  predicate Enabled(w: World, s: Step) {
    s.token !in w.issued && (s.event.Open? || s.tab in w.tabs)
  }

  function ViewOf(w: World, s: Step): View
    requires Enabled(w, s)
  {
    View(if s.event.Open? then BLANK_TAB else w.tabs[s.tab], w.slots)
  }

  function Apply(w: World, s: Step): World
    requires Enabled(w, s)
  {
    var v := Handle(ViewOf(w, s), s.event, s.token);
    World(v.slots, w.tabs[s.tab := v.tab], w.issued + {s.token})
  }

  ghost predicate Trace(ws: seq<World>, steps: seq<Step>) {
    && |ws| == |steps| + 1
    && forall i :: 0 <= i < |steps| ==> Enabled(ws[i], steps[i]) && ws[i + 1] == Apply(ws[i], steps[i])
  }

  // ---------- what holds in every reachable state ----------

  // loadedKey is exactly the connected wallet while no guard is up, and nothing while one is.
  predicate TabOk(t: Tab) {
    && t.loadedKey == (if t.guard.Some? then None else t.address)
    && (t.loadedKey.Some? ==> t.owner == t.loadedKey)
    && (t.loadedKey.Some? ==> t.draftOwner.None? || t.draftOwner == t.loadedKey)
    && (t.loadedKey.Some? && t.network.Some? ==> t.ownerNetwork == t.network)
    && (t.conflict.Some? ==> t.loadedKey.Some? && t.conflict.value.local.Some? && t.conflict.value.stored.Some?)
    && (t.lastKnown.Some? ==> t.loadedKey.Some?)
    && (t.guard.Some? ==> t.guard.value.protectedKey.Some?)
    && (t.pending.Some? ==> NoSecrets(t.pending.value))
    && (HasDraftContent(t.values) ==> t.dirty)
  }

  // A draft in a wallet's slot: own or unowned, or claimed by another wallet as it was before; and without secrets,
  // unless its form data is what was there before.
  predicate DraftKept(key: Wallet, d: Draft, before: Option<Draft>) {
    && (d.owner.None? || d.owner == Some(key) || (before.Some? && d.owner == before.value.owner))
    && (d.formData.None? || NoSecrets(d.formData.value) || (before.Some? && d.formData == before.value.formData))
  }

  predicate SlotsKept(slots: Slots, before: Slots) {
    forall key | key in slots :: DraftKept(key, slots[key], Stored(before, key))
  }

  predicate TokensIssued(w: World) {
    && (forall key | key in w.slots :: w.slots[key].revision.Some? ==> w.slots[key].revision.value in w.issued)
    && (forall t | t in w.tabs && w.tabs[t].conflict.Some? && w.tabs[t].conflict.value.stored.Some? ::
          w.tabs[t].conflict.value.stored.value in w.issued)
  }

  ghost predicate Inv(w: World) {
    TokensIssued(w) && forall t | t in w.tabs :: TabOk(w.tabs[t])
  }

  // A first state: whatever earlier sessions, or anything else, left in storage, and no tab open.
  ghost predicate Start(w: World) {
    w.tabs == map[] && TokensIssued(w)
  }

  lemma PersistKeepsOk(v: View, data: Form, force: bool, token: Revision)
    requires TabOk(v.tab)
    ensures TabOk(Persist(v, data, force, token).tab)
  {
  }

  // Content that comes back from storage is content; a reset form has none.
  lemma ResetHasNoContent(values: Form)
    ensures !HasDraftContent(values + DEFAULT_FORM)
  {
  }

  lemma ReconcileKeepsOk(v: View, token: Revision)
    requires v.tab.pending.Some? ==> NoSecrets(v.tab.pending.value)
    requires HasDraftContent(v.tab.values) ==> v.tab.dirty
    ensures TabOk(Reconcile(v, token).tab)
  {
    var tab := v.tab.(conflict := None, lastKnown := None);
    if tab.address.Some? && tab.dirty && tab.owner == tab.address {
      var bound := Bind(tab, tab.address, tab.network, StoredRevision(v.slots, tab.address.value));
      PersistKeepsOk(v.(tab := bound), tab.values, true, token);
    }
  }

  lemma ResetKeepsOk(tab: Tab)
    requires TabOk(tab)
    ensures TabOk(ResetForm(tab))
  {
    ResetHasNoContent(tab.values);
  }

  lemma ResolveConflictKeepsOk(v: View, choice: Choice, token: Revision)
    requires TabOk(v.tab)
    ensures TabOk(ResolveConflict(v, choice, token).tab)
  {
  }

  lemma ResolveGuardKeepsOk(v: View, action: Action, token: Revision)
    requires TabOk(v.tab)
    ensures TabOk(ResolveGuard(v, action, token).tab)
  {
    if v.tab.guard.Some? && action != Cancel {
      if action == DiscardProtected {
        ResetKeepsOk(v.tab);
      } else {
        var revision := if v.tab.address.Some? then StoredRevision(v.slots, v.tab.address.value) else None;
        var adopted := Bind(v.tab, v.tab.address, v.tab.network, revision).(pending := None, conflict := None);
        PersistKeepsOk(v.(tab := adopted), adopted.values, true, token);
      }
    }
  }

  // Every callback keeps its tab in order, whatever is in storage.
  lemma HandleKeepsOk(v: View, e: Event, token: Revision)
    requires e.Open? || TabOk(v.tab)
    ensures TabOk(Handle(v, e, token).tab)
  {
    match e
    case Open(a, n, values) =>
      ReconcileKeepsOk(View(Edit(BLANK_TAB.(address := a, network := n), values), v.slots), token);
    case Context(a, n, values) =>
      var tab := Edit(v.tab, values).(address := a, network := n);
      ReconcileKeepsOk(v.(tab := tab), token);
    case Type(values) =>
    case Save => PersistKeepsOk(v, v.tab.values, false, token);
    case DiscardDraft => ResetKeepsOk(v.tab);
    case Resolve(choice) => ResolveConflictKeepsOk(v, choice, token);
    case Guarded(action) => ResolveGuardKeepsOk(v, action, token);
  }

  // No callback puts another wallet's draft, or a secret, into a slot.
  lemma HandleKeepsSlots(v: View, e: Event, token: Revision)
    requires e.Open? || TabOk(v.tab)
    ensures SlotsKept(Handle(v, e, token).slots, v.slots)
  {
  }

  // A slot a callback leaves behind is the one it found, a fresh write, or a keep-remote rewrite of the
  // form data it found under the conflict's revision.
  ghost predicate Relabelled(v: View, e: Event, key: Wallet, d: Draft) {
    && e == Resolve(KeepRemote) && v.tab.address == Some(key)
    && v.tab.conflict.Some? && v.tab.conflict.value.stored.Some?
    && d.revision == v.tab.conflict.value.stored
    && d.formData == (if key in v.slots then v.slots[key].formData else None)
  }

  ghost predicate Untouched(v: View, key: Wallet, d: Draft) {
    key in v.slots && d == v.slots[key]
  }

  lemma SlotAfter(v: View, e: Event, token: Revision, key: Wallet)
    requires e.Open? || TabOk(v.tab)
    requires key in Handle(v, e, token).slots
    ensures var d := Handle(v, e, token).slots[key];
            Untouched(v, key, d) || d.revision == Some(token) || Relabelled(v, e, key, d)
  {
  }

  lemma ConflictAfter(v: View, e: Event, token: Revision)
    ensures var t := Handle(v, e, token).tab;
            t.conflict.Some? && t.conflict.value.stored.Some? ==>
              || t.conflict == v.tab.conflict
              || exists key :: key in v.slots && v.slots[key].revision == t.conflict.value.stored
  {
  }

  lemma ApplyKeepsInv(w: World, s: Step)
    requires Inv(w) && Enabled(w, s)
    ensures Inv(Apply(w, s))
  {
    var v := ViewOf(w, s);
    HandleKeepsOk(v, s.event, s.token);
    ConflictAfter(v, s.event, s.token);
    var w' := Apply(w, s);
    forall key | key in w'.slots && w'.slots[key].revision.Some?
      ensures w'.slots[key].revision.value in w'.issued
    {
      SlotAfter(v, s.event, s.token, key);
    }
  }

  // Every state of every run satisfies the invariant, and holds in its slots own and unowned drafts without secrets,
  // apart from what was there at first.
  lemma {:induction false} Reachable(ws: seq<World>, steps: seq<Step>, i: nat)
    requires Trace(ws, steps) && Start(ws[0]) && i < |ws|
    ensures Inv(ws[i]) && ws[0].issued <= ws[i].issued
    ensures SlotsKept(ws[i].slots, ws[0].slots)
  {
    if i > 0 {
      Reachable(ws, steps, i - 1);
      ApplyKeepsInv(ws[i - 1], steps[i - 1]);
      HandleKeepsSlots(ViewOf(ws[i - 1], steps[i - 1]), steps[i - 1].event, steps[i - 1].token);
      assert ws[i] == Apply(ws[i - 1], steps[i - 1]);
    }
  }
}
