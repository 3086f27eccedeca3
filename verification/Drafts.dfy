/** Create-listing drafts: the entities of src/hooks/useDraftAutoSave.ts and the effect of each
    hook callback, as a function from what a tab sees to what it leaves behind. */
module Drafts {
  import opened Options

  type Wallet = string
  type Network = string
  // A revision token. Only equality is ever used.
  type Revision = nat

  // The form fields. CONTENT_FIELDS are all of the named ones except the price.
  datatype Field = ImageUrl | Title | Category | PreviewText | Description | FullPrompt | CoCreators
                 | PriceXlm | Extra(name: string)
  datatype Value = Text(text: string) | Items(items: seq<string>) | Number(n: int) | Null
  type Form = map<Field, Value>

  const CONTENT_FIELDS: set<Field> :=
    {ImageUrl, Title, Category, PreviewText, Description, FullPrompt, CoCreators}

  const DEFAULT_FORM: Form :=
    map[ImageUrl := Text(""), Title := Text(""), Category := Text(""), PreviewText := Text(""),
        Description := Text(""), FullPrompt := Text(""), PriceXlm := Text("2"), CoCreators := Items([])]

  predicate IsSensitive(f: Field) {
    f == FullPrompt
  }

  predicate IsContent(v: Value) {
    match v
    case Text(s) => s != ""
    case Items(xs) => |xs| > 0
    case Number(_) => true
    case Null => false
  }

  predicate HasDraftContent(form: Form) {
    exists f | f in CONTENT_FIELDS :: f in form && IsContent(form[f])
  }

  predicate NoSecrets(form: Form) {
    forall f | f in form :: !IsSensitive(f)
  }

  function StripSensitive(form: Form): Form {
    map f | f in form && !IsSensitive(f) :: form[f]
  }

  datatype Choice = KeepLocal | KeepRemote
  datatype Action = Adopt | DiscardProtected | Cancel
  datatype GuardKind = WalletChanged | NetworkChanged | WalletDisconnected

  datatype AuditEntry = AuditEntry(local: Option<Revision>, stored: Option<Revision>, resolution: Choice)
  datatype Conflict = Conflict(local: Option<Revision>, stored: Option<Revision>)
  datatype Guard = Guard(kind: GuardKind, draftAddress: Option<Wallet>, draftNetwork: Option<Network>,
                         protectedKey: Option<Wallet>)

  // DraftMeta. A slot re-written by keep-remote after another tab removed it has no form data.
  datatype Draft = Draft(revision: Option<Revision>, formData: Option<Form>, audit: seq<AuditEntry>,
                         owner: Option<Wallet>, network: Option<Network>)

  // localStorage, keyed by the wallet whose slot it is (the key is a prefix plus the wallet).
  type Slots = map<Wallet, Draft>

  // The hook's props, refs and state in one tab.
  datatype Tab = Tab(
    address: Option<Wallet>, network: Option<Network>, values: Form, dirty: bool,
    loadedKey: Option<Wallet>, lastKnown: Option<Revision>, pending: Option<Form>,
    owner: Option<Wallet>, ownerNetwork: Option<Network>, draftOwner: Option<Wallet>,
    conflict: Option<Conflict>, guard: Option<Guard>)

  const BLANK_TAB :=
    Tab(None, None, map[], false, None, None, None, None, None, None, None, None)

  // What one callback reads and writes: its own tab and the storage all tabs share.
  datatype View = View(tab: Tab, slots: Slots)

  function Stored(slots: Slots, key: Wallet): Option<Draft> {
    if key in slots then Some(slots[key]) else None
  }

  function StoredRevision(slots: Slots, key: Wallet): Option<Revision> {
    if key in slots then slots[key].revision else None
  }

  function StoredAudit(slots: Slots, key: Wallet): seq<AuditEntry> {
    if key in slots then slots[key].audit else []
  }

  function OrElse<T>(a: Option<T>, b: Option<T>): Option<T> {
    if a.Some? then a else b
  }

  // ---------- persist ----------

  predicate CanWrite(tab: Tab, data: Form) {
    && tab.address.Some?
    && tab.loadedKey == tab.address
    && HasDraftContent(StripSensitive(data))
  }

  // Last-writer detection: both sides have a revision and they differ.
  predicate IsStale(v: View) {
    && v.tab.address.Some?
    && StoredRevision(v.slots, v.tab.address.value).Some?
    && v.tab.lastKnown.Some?
    && StoredRevision(v.slots, v.tab.address.value) != v.tab.lastKnown
  }

  function Persist(v: View, data: Form, force: bool, token: Revision): View {
    if !CanWrite(v.tab, data) then
      v
    else
      var safe := StripSensitive(data);
      var key := v.tab.address.value;
      if !force && IsStale(v) then
        v.(tab := v.tab.(pending := Some(safe),
                         conflict := Some(Conflict(v.tab.lastKnown, StoredRevision(v.slots, key)))))
      else
        View(v.tab.(lastKnown := Some(token)),
             v.slots[key := Draft(Some(token), Some(safe), StoredAudit(v.slots, key), v.tab.address, v.tab.network)])
  }

  // ---------- the load/reconcile effect ----------

  function Bind(tab: Tab, owner: Option<Wallet>, network: Option<Network>, revision: Option<Revision>): Tab {
    tab.(owner := owner, ownerNetwork := network, draftOwner := owner, lastKnown := revision,
         guard := None, loadedKey := tab.address)
  }

  function Block(tab: Tab, guard: Guard): Tab {
    tab.(guard := Some(guard), loadedKey := None)
  }

  function Reconcile(v: View, token: Revision): View {
    var tab := v.tab.(conflict := None, lastKnown := None);
    if tab.address.None? then
      var guard := if tab.dirty && tab.owner.Some?
                   then Some(Guard(WalletDisconnected, tab.owner, tab.ownerNetwork, tab.owner))
                   else None;
      v.(tab := tab.(guard := guard, loadedKey := None))
    else
      var key := tab.address.value;
      var stored := Stored(v.slots, key);
      if tab.dirty && tab.owner.Some? && tab.owner != tab.address then
        v.(tab := Block(tab, Guard(WalletChanged, tab.owner, tab.ownerNetwork, tab.owner)).(pending := None))
      else if stored.Some? && stored.value.owner.Some? && stored.value.owner != tab.address then
        v.(tab := Block(tab, Guard(WalletChanged, stored.value.owner, stored.value.network, Some(key))))
      else if stored.Some? && stored.value.network.Some? && tab.network.Some?
        && stored.value.network != tab.network then
        v.(tab := Block(tab, Guard(NetworkChanged, OrElse(stored.value.owner, tab.address),
                                   stored.value.network, Some(key))))
      else if tab.dirty && tab.owner == tab.address then
        Persist(v.(tab := Bind(tab, tab.address, tab.network, StoredRevision(v.slots, key))),
                tab.values, true, token)
      else if stored.Some? && stored.value.formData.Some? then
        var bound := Bind(tab, OrElse(stored.value.owner, tab.address),
                          OrElse(stored.value.network, tab.network), stored.value.revision);
        v.(tab := bound.(values := tab.values + StripSensitive(stored.value.formData.value), dirty := true))
      else
        v.(tab := Bind(tab, tab.address, tab.network, None))
  }

  // ---------- the callbacks ----------

  // The values mirror effect.
  function Edit(tab: Tab, values: Form): Tab {
    tab.(values := values, dirty := tab.dirty || HasDraftContent(values))
  }

  function Remove(slots: Slots, key: Option<Wallet>): Slots {
    if key.Some? then slots - {key.value} else slots
  }

  function ResetForm(tab: Tab): Tab {
    tab.(values := tab.values + DEFAULT_FORM, dirty := false, lastKnown := None, pending := None,
         conflict := None, guard := None, owner := tab.address, ownerNetwork := tab.network,
         draftOwner := None, loadedKey := tab.address)
  }

  function Discard(v: View): View {
    View(ResetForm(v.tab), Remove(v.slots, v.tab.address))
  }

  function ResolveConflict(v: View, choice: Choice, token: Revision): View {
    if v.tab.address.None? || v.tab.conflict.None? then
      v
    else
      var key := v.tab.address.value;
      var conflict := v.tab.conflict.value;
      var stored := Stored(v.slots, key);
      var audit := StoredAudit(v.slots, key) + [AuditEntry(conflict.local, conflict.stored, choice)];
      var closed := v.tab.(pending := None, conflict := None);
      match choice
      case KeepRemote =>
        var loaded := if stored.Some? && stored.value.formData.Some?
                      then Edit(closed, closed.values + StripSensitive(stored.value.formData.value))
                      else closed;
        var revision := if conflict.stored.Some? then conflict.stored else Some(token);
        var kept := if stored.Some? then stored.value else Draft(None, None, [], None, None);
        View(loaded.(lastKnown := conflict.stored),
             v.slots[key := kept.(revision := revision, audit := audit)])
      case KeepLocal =>
        var local := if v.tab.pending.Some? then v.tab.pending.value else StripSensitive(v.tab.values);
        View(closed.(lastKnown := Some(token)),
             v.slots[key := Draft(Some(token), Some(local), audit, OrElse(v.tab.owner, v.tab.address),
                                  OrElse(v.tab.ownerNetwork, v.tab.network))])
  }

  function ResolveGuard(v: View, action: Action, token: Revision): View {
    if v.tab.guard.None? || action == Cancel then
      v
    else if action == DiscardProtected then
      var guard := v.tab.guard.value;
      var target := OrElse(guard.protectedKey, OrElse(guard.draftAddress, v.tab.address));
      View(ResetForm(v.tab), Remove(v.slots, target))
    else
      var revision := if v.tab.address.Some? then StoredRevision(v.slots, v.tab.address.value) else None;
      var adopted := Bind(v.tab, v.tab.address, v.tab.network, revision).(pending := None, conflict := None);
      Persist(v.(tab := adopted), adopted.values, true, token)
  }

  predicate CanPublish(tab: Tab) {
    && tab.address.Some? && tab.guard.None? && tab.conflict.None?
    && (tab.draftOwner.None? || tab.draftOwner == tab.address)
  }

  // ---------- events ----------

  datatype Event =
    | Open(openAddress: Option<Wallet>, openNetwork: Option<Network>, openValues: Form)
    | Context(address: Option<Wallet>, network: Option<Network>, values: Form)
    | Type(typed: Form)
    | Save
    | DiscardDraft
    | Resolve(choice: Choice)
    | Guarded(action: Action)

  // The effect of one event in one tab. Opening is a fresh mount; the reconcile effect runs
  // only when the wallet or the network changed.
  function Handle(v: View, e: Event, token: Revision): View {
    match e
    case Open(a, n, values) =>
      Reconcile(View(Edit(BLANK_TAB.(address := a, network := n), values), v.slots), token)
    case Context(a, n, values) =>
      var tab := Edit(v.tab, values).(address := a, network := n);
      if a == v.tab.address && n == v.tab.network then v.(tab := tab) else Reconcile(v.(tab := tab), token)
    case Type(values) => v.(tab := Edit(v.tab, values))
    case Save => Persist(v, v.tab.values, false, token)
    case DiscardDraft => Discard(v)
    case Resolve(choice) => ResolveConflict(v, choice, token)
    case Guarded(action) => ResolveGuard(v, action, token)
  }
}
