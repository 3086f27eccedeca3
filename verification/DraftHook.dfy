/** The hook as it runs in one tab: its refs and state are fields that the callbacks update one by one,
    over the storage object it shares with the other tabs. */
module DraftHook {
  import opened Options
  import opened Drafts

  class LocalStorage {
    var slots: Slots

    constructor ()
      ensures slots == map[]
    {
      slots := map[];
    }
  }

  class DraftTab {
    const storage: LocalStorage

    var address: Option<Wallet>
    var network: Option<Network>
    var values: Form
    var dirty: bool
    var loadedKey: Option<Wallet>
    var lastKnownRevision: Option<Revision>
    var pendingConflict: Option<Form>
    var sessionOwner: Option<Wallet>
    var sessionNetwork: Option<Network>
    var draftOwner: Option<Wallet>
    var conflict: Option<Conflict>
    var sessionGuard: Option<Guard>

    ghost function Tab(): Drafts.Tab
      reads this
    {
      Drafts.Tab.Tab(address, network, values, dirty, loadedKey, lastKnownRevision, pendingConflict,
              sessionOwner, sessionNetwork, draftOwner, conflict, sessionGuard)
    }

    ghost function View(): Drafts.View
      reads this, storage
    {
      Drafts.View.View(Tab(), storage.slots)
    }

    constructor (storage: LocalStorage, address: Option<Wallet>, network: Option<Network>, values: Form)
      ensures this.storage == storage
      ensures Tab() == Edit(BLANK_TAB.(address := address, network := network), values)
    {
      this.storage := storage;
      this.address, this.network, this.values, dirty := address, network, values, HasDraftContent(values);
      loadedKey, lastKnownRevision, pendingConflict := None, None, None;
      sessionOwner, sessionNetwork, draftOwner := None, None, None;
      conflict, sessionGuard := None, None;
    }

    method Persist(data: Form, force: bool, token: Revision)
      modifies this, storage
      ensures View() == Drafts.Persist(old(View()), data, force, token)
    {
      if address.None? || loadedKey != address {
        return;
      }
      var safe := StripSensitive(data);
      if !HasDraftContent(safe) {
        return;
      }
      var key := address.value;
      var storedRevision := StoredRevision(storage.slots, key);
      if !force && storedRevision.Some? && lastKnownRevision.Some? && storedRevision != lastKnownRevision {
        pendingConflict := Some(safe);
        conflict := Some(Conflict.Conflict(lastKnownRevision, storedRevision));
        return;
      }
      var meta := Draft(Some(token), Some(safe), StoredAudit(storage.slots, key), address, network);
      storage.slots := storage.slots[key := meta];
      lastKnownRevision := meta.revision;
    }

    // The values mirror effect.
    method SetValues(newValues: Form)
      modifies this
      ensures Tab() == Edit(old(Tab()), newValues)
    {
      values := newValues;
      if HasDraftContent(newValues) {
        dirty := true;
      }
    }

    method Block(kind: GuardKind, draftAddress: Option<Wallet>, draftNetwork: Option<Network>,
        protectedKey: Option<Wallet>)
      modifies this
      ensures Tab() == Drafts.Block(old(Tab()), Guard(kind, draftAddress, draftNetwork, protectedKey))
    {
      sessionGuard := Some(Guard(kind, draftAddress, draftNetwork, protectedKey));
      loadedKey := None;
    }

    method Bind(owner: Option<Wallet>, ownerNetwork: Option<Network>, revision: Option<Revision>)
      modifies this
      ensures Tab() == Drafts.Bind(old(Tab()), owner, ownerNetwork, revision)
    {
      sessionOwner := owner;
      sessionNetwork := ownerNetwork;
      draftOwner := owner;
      lastKnownRevision := revision;
      sessionGuard := None;
      loadedKey := address;
    }

    // The load/reconcile effect, run on mount and whenever the wallet or the network changed.
    method Reconcile(token: Revision)
      modifies this, storage
      ensures View() == Drafts.Reconcile(old(View()), token)
    {
      conflict := None;
      lastKnownRevision := None;
      if address.None? {
        if dirty && sessionOwner.Some? {
          sessionGuard := Some(Guard(WalletDisconnected, sessionOwner, sessionNetwork, sessionOwner));
        } else {
          sessionGuard := None;
        }
        loadedKey := None;
        return;
      }
      var key := address.value;
      var stored := Stored(storage.slots, key);
      if dirty && sessionOwner.Some? && sessionOwner != address {
        Block(WalletChanged, sessionOwner, sessionNetwork, sessionOwner);
        pendingConflict := None;
        return;
      }
      if stored.Some? && stored.value.owner.Some? && stored.value.owner != address {
        Block(WalletChanged, stored.value.owner, stored.value.network, Some(key));
        return;
      }
      if stored.Some? && stored.value.network.Some? && network.Some? && stored.value.network != network {
        Block(NetworkChanged, OrElse(stored.value.owner, address), stored.value.network, Some(key));
        return;
      }
      if dirty && sessionOwner == address {
        Bind(address, network, StoredRevision(storage.slots, key));
        Persist(values, true, token);
        return;
      }
      if stored.Some? && stored.value.formData.Some? {
        values := values + StripSensitive(stored.value.formData.value);
        Bind(OrElse(stored.value.owner, address), OrElse(stored.value.network, network), stored.value.revision);
        dirty := true;
      } else {
        Bind(address, network, None);
      }
    }

    method ChangeContext(newAddress: Option<Wallet>, newNetwork: Option<Network>, newValues: Form, token: Revision)
      modifies this, storage
      ensures View() == Handle(old(View()), Context(newAddress, newNetwork, newValues), token)
    {
      var changed := newAddress != address || newNetwork != network;
      SetValues(newValues);
      address, network := newAddress, newNetwork;
      if changed {
        Reconcile(token);
      }
    }

    // saveNow, and the autosave timer when it fires.
    method SaveNow(token: Revision)
      modifies this, storage
      ensures View() == Handle(old(View()), Save, token)
    {
      Persist(values, false, token);
    }

    method ResetForm()
      modifies this
      ensures Tab() == Drafts.ResetForm(old(Tab()))
    {
      lastKnownRevision := None;
      pendingConflict := None;
      conflict := None;
      sessionGuard := None;
      dirty := false;
      sessionOwner := address;
      sessionNetwork := network;
      draftOwner := None;
      loadedKey := address;
      values := values + DEFAULT_FORM;
    }

    method DiscardDraft()
      modifies this, storage
      ensures View() == Discard(old(View()))
    {
      if address.Some? {
        storage.slots := storage.slots - {address.value};
      }
      ResetForm();
    }

    method ResolveConflict(choice: Choice, token: Revision)
      modifies this, storage
      ensures View() == Drafts.ResolveConflict(old(View()), choice, token)
      ensures choice == KeepLocal && address.Some? && old(conflict).Some? && old(pendingConflict).Some? ==>
                address.value in storage.slots && storage.slots[address.value].formData == old(pendingConflict)
    {
      if address.None? || conflict.None? {
        return;
      }
      var key := address.value;
      var stored := Stored(storage.slots, key);
      var audit := StoredAudit(storage.slots, key) + [AuditEntry(conflict.value.local, conflict.value.stored, choice)];
      if choice == KeepRemote {
        if stored.Some? && stored.value.formData.Some? {
          SetValues(values + StripSensitive(stored.value.formData.value));
        }
        lastKnownRevision := conflict.value.stored;
        var kept := if stored.Some? then stored.value else Draft(None, None, [], None, None);
        var revision := if conflict.value.stored.Some? then conflict.value.stored else Some(token);
        storage.slots := storage.slots[key := kept.(revision := revision, audit := audit)];
      } else {
        var local := if pendingConflict.Some? then pendingConflict.value else StripSensitive(values);
        var meta := Draft(Some(token), Some(local), audit, OrElse(sessionOwner, address),
          OrElse(sessionNetwork, network));
        storage.slots := storage.slots[key := meta];
        lastKnownRevision := meta.revision;
      }
      pendingConflict := None;
      conflict := None;
    }

    method ResolveSessionGuard(action: Action, token: Revision)
      modifies this, storage
      ensures View() == ResolveGuard(old(View()), action, token)
    {
      if sessionGuard.None? || action == Cancel {
        return;
      }
      if action == DiscardProtected {
        var target := OrElse(sessionGuard.value.protectedKey, OrElse(sessionGuard.value.draftAddress, address));
        if target.Some? {
          storage.slots := storage.slots - {target.value};
        }
        ResetForm();
        return;
      }
      var storedRevision := if address.Some? then StoredRevision(storage.slots, address.value) else None;
      pendingConflict := None;
      conflict := None;
      Bind(address, network, storedRevision);
      if address.Some? {
        Persist(values, true, token);
      }
    }
  }
}
