# Verified models of the prompt marketplace's stateful code

This project models the parts of the marketplace whose guarantees are decided by protocol state rather than by
types or layout, and proves what they keep: drafts shared by many browser tabs, secret rotation, the polling event
consumer, the unlock gate and its nonce ledger, the ledger replay, review pagination, the two contract-upgrade
tools, and four smaller codecs and folds. `dafny verify dfyconfig.toml` checks everything.

Each protocol is written twice where the source is imperative: a class whose methods update the same fields in the
same order as the source, and a function from old state to new state that every method is proved equal to. Whole
runs are sequences of states joined by labelled steps (`Trace`), and the theorems quantify over every run.

| file | what it models |
|---|---|
| `Drafts`, `DraftHook`, `DraftRuns`, `DraftMeaning`, `DraftTheorems`, `DraftCounterexamples` | the draft hook: callbacks as functions, the hook as a class over a shared storage object, what each callback leaves field by field, runs of any number of tabs |
| `Rotation`, `RotationService`, `RotationTheorems` | secret versions, approvals, grace window, rollback; the config object and its version array are shared references |
| `Ledger`, `Subscription`, `SubscriptionTheorems` | the paging record and any number of poll loops over a growing event log |
| `Unlock`, `UnlockTheorems` | unlock and webhook-ownership requests interleaving at their awaits over one nonce ledger |
| `Replay`, `ReplayTheorems`, `ReplaySales` | the event fold and the window loop of the re-index |
| `Reviews`, `ReviewTheorems` | keyset pages over a collection that changes between them |
| `Migration`, `MigrationMeaning`, `MigrationTheorems` | preflight and dry-run upgrade reports |
| `Alerts`, `AlertTheorems` | saved searches and alert deduplication |
| `Recency`, `CursorCodec`, `Escape` | the bounded recency list, the nine-byte cursor, the lab link escaping |
| `Options`, `Text` | Option; string and number-text operations |

## Where the code and what is said about it differ

The models follow the code.

- "A stale tab is warned, never silently overwritten" (src/hooks/useDraftAutoSave.ts:13-16, 70-76) holds for saves by
  a tab with a base revision (`NoLostUpdate`). It fails in two ways, which `UnseenOverwriteExactly` shows to be all of
  them short of an explicit decision by the user: a save by a tab without a base (`NoBaseOverwrites`: two tabs that
  open an empty slot), and the forced flush when the wallet or the network of a tab with edits changes, base or not
  (`NetworkFlushOverwrites`, `ReconnectFlushes`).
- A revision token identifies a draft's content exactly as long as every keep-remote resolution finds in the slot the
  content that was there when its conflict was raised (`TokensNameContents`); a write in between breaks it
  (`KeepRemoteRelabels`).
- docs/secret-rotation.md says the previous secret stays valid during the grace period. The window runs from the
  secret's creation (`GraceInRuns`), so a secret older than the grace period is refused as soon as it is superseded
  (`SupersededAtOnce`).
- Loops that race to give the record its starting ledger can lose events. A later starting ledger is harmless exactly
  when the record has a token or that ledger starts no later than the first event still owed
  (`LatestKeepsInvExactly`); with harmless ones alone nothing is lost (`NoLossInOrder`), and after any other one events
  can be lost for good (`UnsafeStartLoses`, and `RacingStartsLose` from the very start).
- Event delivery is not exactly once: after an empty page a lone loop restarts inclusive of the latest ledger
  (`RestartRedelivers` says exactly when that repeats events, `LoneLoopRepeats` is such a run). The confinement of repeats to that ledger is for a lone
  loop only: two loops can deliver any page twice (`TwoLoopsRepeat`).
- A nonce is single-use until its retention has passed (`NonceIsSingleUse`); at every moment after that, a request that
  was verified in time and then delayed passes with a spent nonce (`LateConsumptionPasses`).
- Overlapping replay windows spoil `salesCount` and nothing else: where the pages leave no gap it is right exactly when
  no purchase lies in two fetched pages (`SalesRightExactly`; `OneSaleCountsTwice` is a case where one does). With gaps
  a missed and a repeated purchase can cancel (`MissedAndRepeatedCancel`). A window with more events than a page loses some (`EveryEventIsFetched`).
- A negative `limit` ends the review walk in a server error: -2 at the first answer, every other one after all visible
  reviews but the oldest (`NegativeLimitFails`). On a collection nobody touches a walk always ends, on a last page
  exactly when the limit is not negative and no review is of a newer schema (`FrozenWalk`).
- A removed error variant whose code holds a colon stops the dry-run tool with an IndexError (`ErrorFamily`,
  `ReportedFamilies`).

## Model

| member | source | states |
|---|---|---|
| `DraftHook.DraftTab.Persist` | src/hooks/useDraftAutoSave.ts:252-293 | one save attempt leaves tab and storage as `Drafts.Persist` says: refused without a loaded slot or content, stale with a conflict and the data kept aside, else a fresh revision that keeps the slot's audit trail |
| `DraftHook.DraftTab.SetValues` | src/hooks/useDraftAutoSave.ts:301-306 | mirroring new values marks the session dirty when they hold content and never unmarks it |
| `DraftHook.DraftTab.Reconcile` | src/hooks/useDraftAutoSave.ts:314-431 | the load effect decides between guarding, flushing live edits, loading the stored draft and starting fresh as `Drafts.Reconcile` does, and changes storage only by the flush |
| `DraftHook.DraftTab.ChangeContext` | src/hooks/useDraftAutoSave.ts:301-431 | a wallet or network change reconciles against the live edits; an unchanged context only mirrors them |
| `DraftHook.DraftTab.SaveNow` | src/hooks/useDraftAutoSave.ts:433-478 | a manual save and a fired autosave timer are the same unforced attempt |
| `DraftHook.DraftTab.DiscardDraft` | src/hooks/useDraftAutoSave.ts:451-472 | discarding removes exactly the connected wallet's slot and resets the session |
| `DraftHook.DraftTab.ResolveConflict` | src/hooks/useDraftAutoSave.ts:481-537 | keep-local writes the form data that was kept aside; storage and tab become what `Drafts.ResolveConflict` says, whose two choices `KeepLocalMeaning` and `KeepRemoteMeaning` state field by field |
| `DraftHook.DraftTab.ResolveSessionGuard` | src/hooks/useDraftAutoSave.ts:540-593 | adopt rebinds and saves by force, discard removes the protected slot, cancel does nothing |
| `DraftRuns.HandleKeepsOk` | src/hooks/useDraftAutoSave.ts:252-593 | whatever is in storage, every callback keeps its tab in order: a guard means no loaded slot, a loaded slot is the connected wallet's and its session's, kept-aside data holds no secret |
| `DraftRuns.HandleKeepsSlots` | src/hooks/useDraftAutoSave.ts:118-128 | no callback puts another wallet's draft or a sensitive field into a slot; what of either was there stays as it was or goes |
| `DraftRuns.ResetHasNoContent` | src/hooks/useDraftAutoSave.ts:131-137 | a form reset to its defaults is not worth saving, whatever it held |
| `DraftRuns.SlotAfter` | src/hooks/useDraftAutoSave.ts:274-290 | a slot a callback leaves is the one it found, a write under the fresh token, or a keep-remote rewrite of what it found |
| `DraftRuns.Reachable` | src/hooks/useDraftAutoSave.ts:252-593 | both hold in every state of every run of any number of tabs, from any storage |
| `DraftMeaning.ContentMeaning` | src/hooks/useDraftAutoSave.ts:131-137 | a form has content when one of the seven content fields is neither an empty text, an empty list nor null; what is saved of it, when one of the six that are not secret is |
| `DraftMeaning.SaveMeaning` | src/hooks/useDraftAutoSave.ts:252-293 | in every reachable state a save does nothing without a wallet, under a guard or without content, raises a conflict when the stored revision is another than the base, and otherwise leaves in the wallet's slot exactly the form's fields but the secret one, under a fresh token, with owner, network and the audit trail that was there |
| `DraftMeaning.KeepLocalMeaning` | src/hooks/useDraftAutoSave.ts:515-530 | over any run keep-local leaves in the slot exactly the fields the tab's form held when it raised the conflict, each with its value and without the secret one, whatever the slot holds by then, under the connected wallet and its network and a fresh token, with the resolution at the end of the trail |
| `DraftMeaning.KeepRemoteMeaning` | src/hooks/useDraftAutoSave.ts:494-513 | keep-remote leaves the slot's form data, owner and network under the conflict's revision, with one audit entry more; in the form the stored fields win, and the others stay |
| `DraftMeaning.LoadGuards` | src/hooks/useDraftAutoSave.ts:314-385 | on arriving at a wallet and network a guard goes up exactly when the form holds another wallet's edits, or edits and there is no wallet, or another wallet claims the slot, or the stored draft is of another network; it names whose draft it protects, and then no slot and no form value changes |
| `DraftMeaning.LoadKeepsEdits` | src/hooks/useDraftAutoSave.ts:392-402 | where no guard is due the session's own edits stay in the form and, if they have content, are written to the slot |
| `DraftMeaning.LoadShowsStored` | src/hooks/useDraftAutoSave.ts:406-428 | without edits a stored draft is shown, its fields winning over the form's and its revision becoming the base; without one the form stays |
| `DraftMeaning.LoadRuns` | src/hooks/useDraftAutoSave.ts:301-431 | the load effect runs on a mount, without a session, and on a change of wallet or network, with the session of the live edits; with neither changed only the form does |
| `DraftMeaning.TypeMeaning` | src/hooks/useDraftAutoSave.ts:301-306 | typing shows what was typed and marks the session as soon as a content field is filled in, for good |
| `DraftMeaning.ResetMeaning` | src/hooks/useDraftAutoSave.ts:149-158 | a reset form has the eight defaults, keeps every other field, and starts a session of the connected wallet without base, conflict or guard |
| `DraftMeaning.DiscardMeaning` | src/hooks/useDraftAutoSave.ts:451-472 | discarding removes the connected wallet's slot and no other, and resets the form |
| `DraftMeaning.DiscardProtectedMeaning` | src/hooks/useDraftAutoSave.ts:545-573 | discarding at a guard removes the slot of the draft the guard protects and no other |
| `DraftMeaning.AdoptMeaning` | src/hooks/useDraftAutoSave.ts:575-591 | adopting keeps the form, makes the connected wallet its owner and, if the form has content, leaves exactly its fields but the secret one in that wallet's slot |
| `DraftMeaning.NothingToDecide` | src/hooks/useDraftAutoSave.ts:481-543 | cancelling a guard, and resolving a guard or conflict that is not there, changes nothing |
| `DraftMeaning.PublishMeaning` | src/hooks/useDraftAutoSave.ts:602-607 | in every reachable state publishing is offered if and only if a wallet is connected and neither a guard nor a conflict is up |
| `DraftTheorems.OwnedSessions` | src/hooks/useDraftAutoSave.ts:314-607 | from any storage, in every reachable state: an active guard makes saving write nothing, a loaded slot is the connected wallet's own session, publishing is offered only then and on the session's network, and a slot's draft is own, unowned or claimed by whoever claimed it at first, without a sensitive field unless its data was there at first |
| `DraftTheorems.StorageStaysClean` | src/hooks/useDraftAutoSave.ts:118-128 | where storage held own and unowned drafts without sensitive fields at first, it always does |
| `DraftTheorems.SessionIsolation` | src/hooks/useDraftAutoSave.ts:308-365 | edits begun under a wallet stay its session through any switches and disconnects, and that tab writes to no other wallet's slot until the user adopts, discards or reloads |
| `DraftTheorems.ReconnectFlushes` | src/hooks/useDraftAutoSave.ts:366-410 | reconnecting the owner writes the kept edits to its slot, over any draft another tab left there meanwhile, unless that draft is another wallet's or of another network; then a guard goes up and nothing is written |
| `DraftTheorems.AuditAfter` | src/hooks/useDraftAutoSave.ts:485-531 | one callback leaves a surviving slot's audit trail alone or appends the entry of the conflict it resolves |
| `DraftTheorems.AuditOnlyAppends` | src/hooks/useDraftAutoSave.ts:280-288 | over any run the audit trail of a slot that is never removed only grows at its end |
| `DraftTheorems.FaithfulExtends` | src/hooks/useDraftAutoSave.ts:506-513 | one more step keeps tokens naming one content each, provided a keep-remote step finds the content its revision had |
| `DraftTheorems.ConflictWasRaised` | src/hooks/useDraftAutoSave.ts:264-280 | a tab's conflict was raised by a stale save of its own, at the wallet it is still connected to; it names the revision then in the slot, and the data kept aside is what the form held then |
| `DraftTheorems.TokensNameContents` | src/hooks/useDraftAutoSave.ts:506-513 | over a run a token names one content of a slot if and only if every keep-remote resolution finds in the slot the form data that was there when its conflict was raised |
| `DraftTheorems.UndisturbedIsCoherent` | src/hooks/useDraftAutoSave.ts:481-537 | it does whenever nobody writes between a detection and its keep-remote resolution |
| `DraftTheorems.BaseAfter` | src/hooks/useDraftAutoSave.ts:252-593 | after any callback a tab's base revision is its old one or the one now in the slot it has loaded |
| `DraftTheorems.BaseWasHeld` | src/hooks/useDraftAutoSave.ts:252-593 | a tab's base revision is one it itself loaded, wrote or adopted earlier in the run |
| `DraftTheorems.NoLostUpdate` | src/hooks/useDraftAutoSave.ts:262-293 | an unforced save by a tab with a base replaces storage only if the stored revision is that base or absent; otherwise storage is unchanged and a conflict names both revisions; the content replaced is the content the tab once held when tokens name contents |
| `DraftTheorems.UnseenOverwriteExactly` | src/hooks/useDraftAutoSave.ts:252-431 | short of an explicit resolution or discard, a step replaces a stored revision other than its tab's base if and only if it is a save by a tab without a base, or a wallet or network change that flushes the session's own edits over a draft of no other wallet or network; neither raises a conflict |
| `DraftCounterexamples.NoBaseOverwrites` | src/hooks/useDraftAutoSave.ts:264-269 | a run of two tabs from an empty slot in which one draft replaces another without a conflict |
| `DraftCounterexamples.NetworkFlushOverwrites` | src/hooks/useDraftAutoSave.ts:391-401 | a run in which every save was based on what it replaced, and then a tab left behind replaces the newer draft by its older one when its network resolves, without conflict or guard |
| `DraftCounterexamples.KeepRemoteRelabels` | src/hooks/useDraftAutoSave.ts:506-513 | a run in which a keep-remote resolution gives an old token new content |
| `RotationService.Rotator.RotateSecretCAS` | api/auth/rotateSecret.ts:106-137 | a rotation at the expected version pushes, prunes and bumps as `CasRotate` does on the shared config object, giving it a fresh version array; at any other version nothing changes |
| `RotationService.Rotator.ApproveSecretRotation` | api/auth/rotateSecret.ts:139-165 | an approval adds the trimmed operator to exactly the expected version's set; it is pending with fewer operators than the threshold, which it names, and approved with at least as many |
| `RotationService.Rotator.GetActiveSecrets` | api/auth/rotateSecret.ts:199-206 | reading fails exactly when a version that is active or within the grace period of its creation is sealed under another passphrase; otherwise it gives exactly the secrets of those versions |
| `RotationService.Rotator.RotateSecretWithApprovals` | api/auth/rotateSecret.ts:167-194 | the whole approval path; after a failed verification the store is a fresh object with the prior state while the object callers held before has been bumped |
| `RotationService.Rotator.IsSecretValid` | api/auth/rotateSecret.ts:211-214 | the same failure; otherwise a secret is valid exactly when an active or in-grace version holds it |
| `RotationService.Rotator.CleanupExpiredVersions` | api/auth/rotateSecret.ts:219-226 | cleanup replaces the shared config's version array by the live versions and changes nothing else |
| `RotationTheorems.LiveTwice` | api/auth/rotateSecret.ts:129-135 | pruning by an earlier cutoff is forgotten by pruning at a later one, also after the next version became active |
| `RotationTheorems.CasMatches` | api/auth/rotateSecret.ts:106-137 | a rotation keeps a pruning store and a never-pruned one equal in every later view |
| `RotationTheorems.RotateMatches` | api/auth/rotateSecret.ts:167-194 | so does the approval path, rolled back or not |
| `RotationTheorems.PruningIsInvisible` | api/auth/rotateSecret.ts:106-226 | over any run under a clock that never goes back, the pruning store answers every call as a store that keeps every version, and the active version stays present |
| `RotationTheorems.PruningFromStart` | api/auth/rotateSecret.ts:106-226 | in particular from the initial empty store |
| `RotationTheorems.ApprovalsAreBacked` | api/auth/rotateSecret.ts:139-165 | at any time a version's recorded operators are among those who approved exactly that version |
| `RotationTheorems.ThresholdMeaning` | api/auth/rotateSecret.ts:91-94 | the threshold is two for an absent, zero or negative setting and otherwise the least whole number not below it |
| `RotationTheorems.ApprovalMeaning` | api/auth/rotateSecret.ts:139-165 | an operator of nothing but spaces is refused without a trace; any other is recorded for that version alone, and the answer is pending if and only if the version has fewer operators than the threshold |
| `RotationTheorems.RotationMeaning` | api/auth/rotateSecret.ts:106-137 | at the active version a rotation adds the new secret as the next version, stamped and sealed, makes it active and keeps besides it exactly the versions within the grace period, in order; at any other it changes nothing and names the active one |
| `RotationTheorems.DecryptAt` | api/auth/rotateSecret.ts:199-206 | the secrets read are those of the live versions, in their order |
| `RotationTheorems.QuorumBehindEveryBump` | api/auth/rotateSecret.ts:91-94 | every bump through the approval path had at least the threshold of distinct trimmed, non-blank operators approving that version, two where nothing is configured, blank calls not counted; it raises the version by one and consumes its approvals |
| `RotationTheorems.NoBlankOperators` | api/auth/rotateSecret.ts:139-150 | no blank operator id is ever recorded |
| `RotationTheorems.OneWinner` | api/auth/rotateSecret.ts:106-118 | of all calls expecting one version, by either path, at most one rotates it |
| `RotationTheorems.DecryptFailsOnForeign` | api/auth/rotateSecret.ts:199-206 | reading fails if and only if a live version is sealed under another passphrase |
| `RotationTheorems.VerificationFailsExactly` | api/auth/rotateSecret.ts:176-193 | an approved rotation is rolled back if and only if a secret under another passphrase is still in its window; then only the approval remains |
| `RotationTheorems.OnlyABumpMovesVersions` | api/auth/rotateSecret.ts:167-194 | unless it rotated, the approval path leaves the active version, the version list and the grace period as they were |
| `RotationTheorems.ActiveSecretsMeaning` | api/auth/rotateSecret.ts:199-206 | when reading the active secrets fails and which secrets it gives otherwise, both exactly |
| `RotationTheorems.VersionsUpToActive` | api/auth/rotateSecret.ts:106-226 | in every run the versions kept are numbered from 1 to the active one |
| `RotationTheorems.GraceRunsFromCreation` | api/auth/rotateSecret.ts:129-131 | after a rotation an older secret is accepted exactly until its creation time plus the grace period |
| `RotationTheorems.GraceInRuns` | api/auth/rotateSecret.ts:129-131 | after any run, at its end or any later time, a version that was ever created is read exactly while it is active or within the grace period of its creation |
| `RotationTheorems.SupersededAtOnce` | api/auth/rotateSecret.ts:129-131 | a run of two rotations further apart than the grace period: the first secret is the only active one just before the second rotation and refused just after it |
| `Subscription.Poller.Prepare` | src/hooks/useSubscription.ts:54-68 | the latest ledger becomes the start only when there is none; the request goes by token if there is one, else by ledger |
| `Subscription.Poller.HandleResponse` | src/hooks/useSubscription.ts:79-97 | a response delivers its events in order and leaves the record at its latest ledger and the token of its last event, or no token when empty |
| `Subscription.AnswerMeaning` | src/hooks/useSubscription.ts:64-77 | an answer holds the first ten events from the ledger, or after the token, asked for, or as many as there are |
| `SubscriptionTheorems.DeliveredIsAnInterval` | src/hooks/useSubscription.ts:83-97 | deliveries in order hold every event from the first one owed up to some point and none beyond it |
| `SubscriptionTheorems.DeliverPage` | src/hooks/useSubscription.ts:83-97 | a page that starts at or before the first undelivered event keeps deliveries in order and advances them to its end |
| `SubscriptionTheorems.HandleKeepsInv` | src/hooks/useSubscription.ts:79-97 | handling any outstanding answer, stale or not, leaves the next request at or before the first undelivered event |
| `SubscriptionTheorems.LatestKeepsInvExactly` | src/hooks/useSubscription.ts:54-57 | a starting ledger that arrives when the record has one leaves the next request at or before the first event owed if and only if the record has a token or that ledger starts no later than that event |
| `SubscriptionTheorems.NoLossInOrder` | src/hooks/useSubscription.ts:52-105 | over any run of any number of loops from the record as created, with failures, throwing callbacks and races to start it: while later starting ledgers are safe in that sense, no event from the first starting ledger on is skipped, and first deliveries of those come in ledger order |
| `SubscriptionTheorems.NothingEarlier` | src/hooks/useSubscription.ts:52-105 | where no starting ledger goes back behind the first one, nothing before it is delivered |
| `SubscriptionTheorems.UnsafeStartLoses` | src/hooks/useSubscription.ts:54-57 | after any unsafe starting ledger there is a continuation from which the first event owed is never delivered in any run |
| `SubscriptionTheorems.BehindAfterEmptyPage` | src/hooks/useSubscription.ts:63-82 | a lone loop is about to repeat events only after an earlier empty page, and of that page's latest ledger |
| `SubscriptionTheorems.RedeliveryIsConfined` | src/hooks/useSubscription.ts:63-97 | every event a lone loop delivers again is of the ledger that was the latest when an earlier page came back empty |
| `SubscriptionTheorems.RestartRedelivers` | src/hooks/useSubscription.ts:79-82 | after an empty page the loop repeats events if and only if the last one delivered is of that page's latest ledger |
| `SubscriptionTheorems.LoneLoopRepeats` | src/hooks/useSubscription.ts:79-82 | from the record as created, a run of one loop over a log of one event that delivers it twice |
| `SubscriptionTheorems.PollProgress` | src/hooks/useSubscription.ts:63-97 | a successful poll moves the next request a full page on, or to the end of the log |
| `SubscriptionTheorems.CatchesUp` | src/hooks/useSubscription.ts:52-105 | while no ledger closes, n successful polls deliver a log that is at most n pages ahead completely |
| `SubscriptionTheorems.RacingStartsLose` | src/hooks/useSubscription.ts:54-57 | from the record as created, a run of two loops after which an event of the first starting ledger is never delivered |
| `SubscriptionTheorems.TwoLoopsRepeat` | src/hooks/useSubscription.ts:63-97 | any two idle loops can fetch one page and both deliver it |
| `UnlockTheorems.NonceIsRetained` | src/lib/observability/sharedStore.ts:35-61 | a taken nonce stays in the ledger until its retention has passed |
| `UnlockTheorems.NonceIsSingleUse` | api/prompts/unlock.ts:460-492 | in every interleaving of unlock and webhook requests a nonce is taken again only after its retention: the token it was taken with has expired and a minute has passed |
| `UnlockTheorems.MoveInto` | api/prompts/unlock.ts:407-790 | each gate is passed only from the one before it and only when its own check held at that moment |
| `UnlockTheorems.NonceEvidence` | api/webhooks/index.ts:214-240 | whoever reaches the nonce gate had verified its token and its wallet's signature of that payload before |
| `UnlockTheorems.PlaintextEvidence` | api/prompts/unlock.ts:407-790 | a plaintext reply comes from a request that itself, in this order, verified an acceptable token and its signature, took its nonce, passed the replay check, saw entitlement, saw a listing whose price, version and hashed fields are those signed, all for the number its prompt id stands for, and passed the integrity check |
| `Text.TrimMeaning` | api/auth/rotateSecret.ts:143-146 | trimming takes spaces off both ends and nothing else, so that it leaves nothing exactly of a text of spaces |
| `Text.LowerMeaning` | server/scripts/reIndexFromLedger.ts:87-90 | lower-casing turns each capital letter into its small one, in place, and keeps every other character |
| `Text.IncludesMeaning` | src/hooks/useSavedSearches.ts:175-177 | a text includes another exactly when that stands in it from some position on, character by character |
| `Text.BigIntOfDecimal` | api/prompts/unlock.ts:525-525 | reading the decimal text of a number gives the number |
| `Text.BigIntOfPrefixed` | api/prompts/unlock.ts:525-525 | text that begins with 0x, 0o or 0b is read in base 16, 8 or 2 |
| `Text.BigIntIgnoresSpaces` | api/prompts/unlock.ts:525-525 | spaces around a number make no difference, and spaces alone are zero |
| `Text.NumeralMeaning` | api/prompts/unlock.ts:525-525 | a text is a numeral of a base exactly when it is not empty and has only digits of that base |
| `UnlockTheorems.AcceptedExactly` | src/lib/auth/challenge.ts:143-233 | a token is accepted if and only if it is for the address, prompt and action asked for, names the origin, network and contract where both sides name one, has not expired, and was made with the current secret or, for unlocking within the grace window, the previous one |
| `UnlockTheorems.TermsMatchExactly` | api/prompts/unlock.ts:67-112 | a listing passes if and only if a signed price equals its price text, or nothing where it has none, a signed version equals its source id, else its sales count, else nothing, and every field a signed listing hash binds equals the listing's |
| `UnlockTheorems.GatesOpenExactly` | api/prompts/unlock.ts:407-790 | each gate lets a request on if and only if its own check holds at that moment, spelled out, and refuses it otherwise; it moves that request alone, and only taking a nonce changes the ledger, where the nonce stays until its token has expired and for a minute at least |
| `UnlockTheorems.TokensAreNotShared` | api/webhooks/index.ts:215-220 | no token serves both an unlock and a webhook proof in any run |
| `UnlockTheorems.LateConsumptionPasses` | src/lib/observability/sharedStore.ts:35-61 | for every genuine unlock or webhook request and every moment after its retention there is a run in which it is sent twice, verified twice in time, and takes the same nonce a second time at that moment |
| `Replay.ReIndexer.ProcessEvent` | server/scripts/reIndexFromLedger.ts:72-189 | one event raises the counter of its kind by one and no other, and changes the index as `Process` does; a dry run counts only |
| `Replay.ReIndexer.ReIndex` | server/scripts/reIndexFromLedger.ts:216-266 | prompts and users are wiped, purchases kept, every window's page is replayed, and the last indexed ledger recorded; a dry run writes nothing; dry run or not, each counter is the number of events of its kind that the pages bring, and the six add up to all of those events |
| `Replay.CountersMeaning` | server/scripts/reIndexFromLedger.ts:224-252 | over any windows each counter is the number of places in the sequence of all pages at which an event of its kind stands, and the counters add up to the length of that sequence |
| `ReplayTheorems.ReplayWrites` | server/scripts/reIndexFromLedger.ts:72-189 | price, active flag, owner and purchase entries each depend on the last event that writes them and on nothing else |
| `ReplayTheorems.DoAllShape` | server/scripts/reIndexFromLedger.ts:72-189 | a replay either leaves such an entry alone or ends on one value whatever it was before |
| `ReplayTheorems.ReplayTwice` | server/scripts/reIndexFromLedger.ts:72-189 | replaying any events twice in a row leaves, sales counts aside, what replaying them once leaves |
| `ReplayTheorems.SuffixReplay` | server/scripts/reIndexFromLedger.ts:236-258 | the full sequence followed by any of its suffixes leaves what one pass leaves |
| `ReplayTheorems.OverlappingPage` | server/scripts/reIndexFromLedger.ts:245-252 | a page that starts within what was replayed and ends beyond it adds only what is new |
| `ReplayTheorems.WindowsTile` | server/scripts/reIndexFromLedger.ts:233-258 | the windows tile start to latest without gap or overlap, each but the last spanning 2000 ledgers and the last at most so many |
| `ReplayTheorems.GaplessIsOnePass` | server/scripts/reIndexFromLedger.ts:236-258 | whatever overlaps and failed fetches there are, pages that leave no gap amount to one pass |
| `ReplayTheorems.EveryEventIsFetched` | server/scripts/reIndexFromLedger.ts:245-252 | with pages of bounded size every event from start to latest is fetched if and only if no window holds more than a page |
| `ReplayTheorems.ReindexIsOnePass` | server/scripts/reIndexFromLedger.ts:233-258 | then the re-index leaves what one pass over all those events leaves |
| `ReplayTheorems.AbuttingPagesAreOnePass` | server/scripts/reIndexFromLedger.ts:236-258 | pages that abut are one pass in every field, sales counts included |
| `ReplayTheorems.SalesOfOnePass` | server/scripts/reIndexFromLedger.ts:111-119 | one pass counts exactly the purchases after the prompt's creation |
| `ReplayTheorems.OverlapDoubleCounts` | server/scripts/reIndexFromLedger.ts:116-119 | a repeated suffix adds its purchases again, so a prompt stays right if and only if the suffix has none of it |
| `ReplaySales.SalesOverWindows` | server/scripts/reIndexFromLedger.ts:236-258 | whatever gaps and overlaps the pages have, the loop leaves a prompt exactly when some page creates it, with one sale for every time a page brings a purchase of it after that |
| `ReplaySales.SalesWithoutGaps` | server/scripts/reIndexFromLedger.ts:236-258 | where the pages leave no gap, that is the purchases since creation plus those fetched again |
| `ReplaySales.SalesRightExactly` | server/scripts/reIndexFromLedger.ts:236-258 | where the pages leave no gap and prompts are created before they are sold, the loop's count is right if and only if no purchase of the prompt lies in two fetched pages |
| `ReplaySales.OneSaleCountsTwice` | server/scripts/reIndexFromLedger.ts:245-252 | a node with pages of ten events and a prompt sold once, which the loop leaves with two sales |
| `ReplaySales.MissedAndRepeatedCancel` | server/scripts/reIndexFromLedger.ts:245-252 | a node whose pages leave a gap and overlap, where one of two sales is missed, the other counted twice, and the count is right by accident |
| `ReplayTheorems.UsersOnlyGrow` | server/scripts/reIndexFromLedger.ts:87-94 | a replay keeps every user as first created and adds exactly the creators and recipients it meets |
| `ReplayTheorems.NewUserIsNamed` | server/scripts/reIndexFromLedger.ts:87-94 | a wallet met for the first time is named after its first six characters, or all of them, as the event spells it |
| `Reviews.Format` | api/reviews/list.ts:155-182 | the formatting loop fails exactly when a review is of a newer schema; else its counters are the page's size, rating sum and frequencies |
| `Reviews.Handle` | api/reviews/list.ts:92-201 | without a prompt a bad request; with includeAll every visible review; otherwise the first 20 reviews below the cursor where no limit or zero is asked for, and the first of a positive limit up to 50, with a next cursor exactly when more are below; a newer schema among those kept is an error; the statistics are those of the page |
| `Reviews.PageLength` | api/reviews/list.ts:99-150 | a page keeps the first 20 of the reviews below its cursor for an absent or zero limit, and the first n for a limit of n up to 50, or all if fewer; its next cursor is the last one kept, exactly when there are more |
| `Reviews.CountMeaning` | api/reviews/list.ts:155-182 | a rating's frequency is the number of places on the page where it stands |
| `Reviews.SumMeaning` | api/reviews/list.ts:155-182 | the rating sum of a page is the sum over its parts, and of one review its rating |
| `ReviewTheorems.VisibleIsSorted` | api/reviews/list.ts:113-136 | the query returns exactly the prompt's visible reviews, strictly descending by creation time and id |
| `ReviewTheorems.PageMeaning` | api/reviews/list.ts:99-150 | in terms of the collection: of the prompt's published and flagged reviews earlier than the cursor a page has the latest, latest first, 20 of them, or as many as are asked for up to 50, or all; a next cursor exactly when there are more; an error only if a review of a newer schema is among them |
| `ReviewTheorems.PageIsExact` | api/reviews/list.ts:123-150 | a page holds every visible review between its cursor and its end and nothing else, and its next cursor is its last review |
| `ReviewTheorems.WalkIsDescending` | api/reviews/list.ts:65-150 | however the collection changes between pages, following cursors never returns a review twice: the order is strictly descending and each review was visible when read |
| `ReviewTheorems.WalkIsComplete` | api/reviews/list.ts:114-150 | a walk that reaches a last page returned every review that was visible throughout |
| `ReviewTheorems.FrozenWalk` | api/reviews/list.ts:99-150 | on a collection nobody touches, for every limit, the walk ends after at most one answer more than there are reviews, having returned a beginning of the sorted visible list; it ends on a last page, with the full list, if and only if the prompt is named, the limit is not negative and no visible review is of a newer schema |
| `ReviewTheorems.NegativeNeverLast` | api/reviews/list.ts:99-103 | with a negative limit no walk, over a changing collection either, reaches a last page |
| `ReviewTheorems.NegativeTwoFails` | api/reviews/list.ts:131-145 | a limit of -2 is answered by a server error on every collection |
| `ReviewTheorems.NegativeLimitFails` | api/reviews/list.ts:131-145 | on a collection nobody touches and with no review of a newer schema, a limit of -2 returns nothing and every other negative limit all visible reviews but the oldest, and then a server error |
| `Migration.DiffSpec` | scripts/preflight_upgrade.py:134-169 | preflight lists exactly the breaking changes, in order, in its own words |
| `Migration.ClassifyBreaking` | scripts/dry-run-migration.py:64-107 | the dry run lists exactly the breaking changes, in order, in its own words |
| `Migration.CollectAddedEntries` | scripts/dry-run-migration.py:93-100 | the added variants of surviving types are exactly the entries the baseline lacks, qualified by type |
| `Migration.CollectFamilies` | scripts/dry-run-migration.py:113-121 | reading families back either collects them from every text or stops at the first text with too few backticks |
| `Migration.ClassifyChange` | scripts/dry-run-migration.py:49-142 | the whole report; its class is incompatible exactly when preflight would list a break and no-op exactly when nothing changed |
| `MigrationMeaning.BreakMeaning` | scripts/preflight_upgrade.py:134-169 | each kind of break is listed if and only if it is there: a function, error, type or event that is gone, a signature, discriminant or field list that differs, an entry of a surviving type that is gone |
| `MigrationMeaning.BreaksOnce` | scripts/preflight_upgrade.py:134-169 | functions are listed before errors, errors before types, types before events, and no break twice |
| `MigrationMeaning.RemovalsAreTold` | scripts/preflight_upgrade.py:134-169 | both tools report what is gone, in the words for a removal of its kind |
| `MigrationMeaning.ChangesAreTold` | scripts/dry-run-migration.py:64-107 | both tools report what differs, in the words for a change of its kind; preflight alone names the discriminants |
| `MigrationMeaning.EntriesAreTold` | scripts/dry-run-migration.py:84-92 | both tools report an entry that is gone from a surviving type |
| `MigrationMeaning.AdditionsMeaning` | scripts/dry-run-migration.py:69-110 | listed as added are exactly the functions, types and events that only the current spec has, its new errors, and the new entries of types both specs have |
| `MigrationMeaning.BeforeParenMeaning` | scripts/dry-run-migration.py:118-118 | a family is the entry's text up to its first parenthesis |
| `MigrationTheorems.ToolsAgree` | scripts/dry-run-migration.py:49-142 | for what diff_spec returns and what classify_change reports: the class is incompatible exactly when preflight lists a break, the two lists have the same changes in the same order, worded alike but for discriminants, and preflight lists a break also where the dry run gives no report |
| `MigrationTheorems.NoBreakIsCompatible` | scripts/preflight_upgrade.py:134-169 | no breaking change is reported if and only if the current spec keeps everything the baseline has |
| `MigrationTheorems.NoBreakIsReflexive` | scripts/preflight_upgrade.py:134-169 | a spec has no breaking change against itself |
| `MigrationTheorems.NoBreakIsTransitive` | scripts/preflight_upgrade.py:134-169 | two compatible upgrades in a row are compatible as one |
| `MigrationTheorems.ChainIsCompatible` | scripts/preflight_upgrade.py:134-169 | a chain of compatible upgrades is compatible end to end |
| `MigrationTheorems.ClassMeaning` | scripts/dry-run-migration.py:126-131 | the reported class is no-op if and only if the specs are equal up to the order of definitions and the order and repetition of data-type entries, incompatible if and only if the current spec breaks the baseline, and additive otherwise |
| `MigrationTheorems.SplitJoined` | scripts/dry-run-migration.py:114-118 | splitting on backticks undoes joining by them |
| `MigrationTheorems.EntryFamily` | scripts/dry-run-migration.py:114-120 | the text of a removed entry reads back as its family if its type is DataKey and as none otherwise |
| `MigrationTheorems.ErrorFamily` | scripts/dry-run-migration.py:116-118 | the text of a removed error stops the reader exactly when its code has a colon and its name does not begin with " was" |
| `MigrationTheorems.FamiliesReadBack` | scripts/dry-run-migration.py:112-121 | reading all texts back recovers exactly the removed DataKey families, unless one stops the reader |
| `MigrationTheorems.StorageFamilies` | scripts/dry-run-migration.py:84-124 | in terms of the two specs: the families read are those of the DataKey entries that are gone, unless an error whose code has a colon was removed |
| `MigrationTheorems.ReportedFamilies` | scripts/dry-run-migration.py:112-124 | the report has the families of the DataKey entries that are gone and the types that are gone; there is none exactly when an error whose code has a colon was removed |
| `Alerts.SavedSearches.ProcessListingAlerts` | src/hooks/useSavedSearches.ts:153-226 | a batch raises the alerts of `Generated`, puts them before those there were and adds their keys to the seen ones |
| `AlertTheorems.SavingAddsMatches` | src/hooks/useSavedSearches.ts:99-121 | saving a search adds exactly its own matches to those of later batches |
| `AlertTheorems.RenamingKeepsMatches` | src/hooks/useSavedSearches.ts:124-130 | renaming raises and withholds no alert of any batch; the alerts raised for the search carry the new name |
| `AlertTheorems.SilencedUntilEnabled` | src/hooks/useSavedSearches.ts:133-150 | from switching a search's alerts off or deleting it, no batch of any run alerts it until it is saved or toggled on again |
| `Alerts.SavedSearches.DeleteSearch` | src/hooks/useSavedSearches.ts:144-150 | deleting removes exactly the searches with that id and no alert |
| `AlertTheorems.ReadChangesFlags` | src/hooks/useSavedSearches.ts:228-234 | marking read changes nothing but read flags, of exactly the alerts with that id |
| `AlertTheorems.ClearedStaysCleared` | src/hooks/useSavedSearches.ts:236-238 | no alert that was shown when the list was cleared is raised again in any run from there |
| `AlertTheorems.BatchMeaning` | src/hooks/useSavedSearches.ts:165-214 | a batch raises exactly the matches of enabled searches whose key was not seen, each key once; each alert tells its search and its listing with title, category and price, is unread, and has the id drawn for its key |
| `AlertTheorems.MatchMeaning` | src/hooks/useSavedSearches.ts:174-193 | a listing matches when its title or category has the words searched for, letter by letter and small or capital alike, its category and one of its tags are those asked for, if any, and its price lies in the range, ends included |
| `AlertTheorems.EarlierSearchesFirst` | src/hooks/useSavedSearches.ts:166-214 | the alerts of a batch for earlier searches come first, and are those these searches alone would raise |
| `AlertTheorems.EarlierListingsFirst` | src/hooks/useSavedSearches.ts:169-214 | within a search those for earlier listings come first |
| `AlertTheorems.AtMostOnce` | src/hooks/useSavedSearches.ts:153-226 | over any run no key is alerted twice or was seen before it, and the seen keys are the first ones plus those alerted |
| `AlertTheorems.PairsAreRaisedOnce` | src/hooks/useSavedSearches.ts:170-172 | so no search and listing pair is alerted twice, whatever the ids look like |
| `AlertTheorems.EveryAlertMatched` | src/hooks/useSavedSearches.ts:167-198 | every alert of a run was raised for a search that was enabled then and that its listing matched |
| `AlertTheorems.NoMatchIsMissed` | src/hooks/useSavedSearches.ts:165-216 | after a batch every match of an enabled search has been alerted, then or earlier |
| `AlertTheorems.ShownOnce` | src/hooks/useSavedSearches.ts:153-238 | the list shown never holds a pair twice, through reads, clears and edits |
| `AlertTheorems.BatchesSplit` | src/hooks/useSavedSearches.ts:153-226 | with the searches fixed two batches alert the same keys as one, none twice, and leave the same seen keys |
| `AlertTheorems.SplittingABatch` | src/hooks/useSavedSearches.ts:153-226 | the same for pairs, when no search id holds the key separator |
| `AlertTheorems.KeyIsInjective` | src/hooks/useSavedSearches.ts:171-171 | a key names one pair when search ids hold no colon |
| `Recency.RecentlyViewed.RecordView` | src/hooks/useRecentlyViewed.ts:40-55 | a view comes first, before the beginning of the list without its older entry, all of it if the result is shorter than twenty; state and storage agree |
| `Recency.WithoutMeaning` | src/hooks/useRecentlyViewed.ts:58-64 | what removing leaves is exactly the entries with another id, in their order |
| `Recency.UnboundedMeaning` | src/hooks/useRecentlyViewed.ts:40-69 | without the cut, the list after a run has exactly the items whose last view was not removed or cleared since, each as last viewed, latest view first |
| `Recency.WithoutPrefix` | src/hooks/useRecentlyViewed.ts:45-49 | filtering a cut list gives the beginning of the filtered full list, at most one entry shorter |
| `Recency.BoundedIsPrefix` | src/hooks/useRecentlyViewed.ts:40-69 | over any run of views, removals and clears the list has no id twice, at most twenty entries, and is the beginning of the list that is never cut |
| `Recency.ViewsAreTheFirstTwenty` | src/hooks/useRecentlyViewed.ts:42-55 | over views alone it is exactly the first twenty of that list |
| `Recency.RemovalDoesNotRefill` | src/hooks/useRecentlyViewed.ts:57-64 | after a removal it still is if and only if nothing had been cut or the removed id was not listed |
| `CursorCodec.EncodeCursor` | contracts/prompt-hash/src/pagination.rs:46-59 | filling the buffer gives the big-endian id and the type byte, which decode back |
| `CursorCodec.DecodeCursor` | contracts/prompt-hash/src/pagination.rs:62-79 | decoding accepts and rejects as `Decode` does, and what it accepts encodes back to the input |
| `CursorCodec.Layout` | contracts/prompt-hash/src/pagination.rs:46-59 | nine bytes: the id most significant byte first, and the index type's number 0 to 5 in the order of its declaration |
| `CursorCodec.DecodeUndoesEncode` | contracts/prompt-hash/src/pagination.rs:46-79 | decode undoes encode for every 64-bit id and index type |
| `CursorCodec.EncodeUndoesDecode` | contracts/prompt-hash/src/pagination.rs:46-79 | encode undoes decode for every accepted string |
| `CursorCodec.AcceptedAreTheEncodings` | contracts/prompt-hash/src/pagination.rs:26-79 | a string is accepted if and only if it has nine bytes and a known type byte, if and only if it is an encoding |
| `CursorCodec.EncodingIsInjective` | contracts/prompt-hash/src/pagination.rs:46-59 | no two cursors share an encoding |
| `Escape.TwoPassesAreOne` | src/contracts/util.ts:35-37 | the two replacements make one encoding of each character |
| `Escape.EachCharacter` | src/contracts/util.ts:35-37 | wherever it stands, a slash becomes two, a semicolon gets a slash before it, and any other character stays |
| `Escape.EncodingIsDecodable` | src/contracts/util.ts:35-37 | a reader of an encoding, a semicolon and anything after it gets the text and the rest back |
| `Escape.EncodingIsUnique` | src/contracts/util.ts:35-37 | terminated encodings followed by anything are equal only if text and rest are |
| `Escape.ParametersAreDecodable` | src/contracts/util.ts:39-52 | the three parameters of a lab link, of which only the last is terminated, read back as their plain text joined |
| `Escape.SameParameters` | src/contracts/util.ts:39-52 | two settings give the same parameters if and only if their plain texts joined by the separators are equal |

## Left out

- Drafts: save times, the restored flag and the debounce timer; a save may happen at any time, which covers every schedule of the timer and of the one autosave skipped after loading.
- Drafts: failing or cleared localStorage, and a setValue that does not assign; an empty address counts as no wallet.
- Drafts: revision tokens are numbers, and a new one is one that was never issued.
- Rotation: the cipher is the passphrase a secret was sealed under; the HTTP handler, its admin token, key derivation and secret generation are not part of this model; clock readings and new secrets are arguments.
- Subscription: an event is its position in the log, a paging token the event it was issued for, and the server answers with at most ten events after the point asked for and its latest closed ledger; timers and unmounting are a loop that takes no further step.
- Unlock: MACs, signatures and hashes are symbolic, and the challenge message is taken as the payload it is built from; addresses and assets in the listing hash are compared as they are, without case folding.
- Unlock: rate limits, metrics, audit logging, the dispute recorder, key unwrapping and cached idempotent replies; the replay store's verdict is an arbitrary input; a request's prompt id is text, whatever BigInt reads in it.
- Unlock: a nonce is retained in whole milliseconds rather than rounded up to seconds, and a store that cannot be reached is a failed request.
- Webhooks: registration, delivery and the subscription record.
- Replay: documents are reduced to the fields the events write, prices stay in stroops, case is folded for ASCII letters, and an event is processed completely or not at all.
- Replay.ReIndexer.ReIndex: a failed fetch brings no event, and a page that an error cuts short is a shorter answer; what the event that raised the error had already counted or written is not modelled.
- Reviews: the base64url and JSON text of a cursor is taken as the key it encodes, object ids as numbers in the same order, and a malformed cursor as no cursor; the rounded average follows from the total and the sum that are modelled.
- Reviews: rating clamping and the other schema transforms; a review of a newer schema is refused.
- Migration: extraction of specs from Rust text, environment checks, manifests, TTL and rollback notes, build_report and the unused _entries_mean_storage_family; the suppressed list is always empty; families are a set that is sorted only when printed.
- Alerts: reading a number out of a price text, wallet switches, and storage failures; alert ids are drawn by an arbitrary function of the key.
- AlertTheorems.SplittingABatch: needs search ids without a colon, which the generated ids satisfy; the same statement on keys, BatchesSplit, needs nothing.
- Recency: view times are part of the item that is recorded.
- CursorCodec: page limits and the catalog queries that use the cursor are not part of this model.
- Escape: the constant head of each link and the choice of network.
- src/hooks/useOfflineQueue.ts is not part of this model.
- The contract body, the indexer, the lifecycle schema and the bulk-purchase session are not part of this model.
- src/lib/sortUtils.ts, src/services/impactCalculator.ts, src/lib/featureFlags.ts, api/prompts/reports.ts, contract sync backoff and all rendering code are not part of this model.
