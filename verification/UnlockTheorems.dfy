/** What every interleaving of unlock and webhook requests keeps: single use of nonces, and the evidence
    behind every plaintext. */
module UnlockTheorems {
  import opened Options
  import opened Text
  import opened Unlock

  // Step i takes a nonce past the gate.
  ghost predicate TakesNonce(ws: seq<World>, steps: seq<Step>, i: nat, nonce: Nonce)
    requires i < |steps| && i < |ws|
  {
    && steps[i].Consume? && Enabled(ws[i], steps[i])
    && ws[i].requests[steps[i].r].phase.payload.nonce == nonce && nonce !in ws[i].ledger
  }

  // Once taken, a nonce stays in the ledger, or its retention has passed.
  lemma {:induction false} NonceIsRetained(c: Config, ws: seq<World>, steps: seq<Step>, i: nat, j: nat, nonce: Nonce)
    requires Trace(c, ws, steps) && i < j < |ws| && TakesNonce(ws, steps, i, nonce)
    ensures var until := RetainUntil(ws[i].requests[steps[i].r].phase.payload, ws[i].now);
            (nonce in ws[j].ledger && ws[j].ledger[nonce] == until) || ws[j].now > until
  {
    assert ws[j] == Apply(c, ws[j - 1], steps[j - 1]);
    if i < j - 1 {
      NonceIsRetained(c, ws, steps, i, j - 1, nonce);
    }
  }

  // In every interleaving a nonce is taken a second time only after its entry's retention: later than the
  // expiry of the token it was first taken with, and at least a minute later.
  lemma NonceIsSingleUse(c: Config, ws: seq<World>, steps: seq<Step>, i: nat, j: nat, nonce: Nonce)
    requires Trace(c, ws, steps) && i < j < |steps| && TakesNonce(ws, steps, i, nonce)
              && TakesNonce(ws, steps, j, nonce)
    ensures ws[j].now > RetainUntil(ws[i].requests[steps[i].r].phase.payload, ws[i].now)
    ensures ws[j].now > ws[i].requests[steps[i].r].phase.payload.expiresAt
    ensures ws[j].now > ws[i].now + 60_000
  {
    NonceIsRetained(c, ws, steps, i, j, nonce);
  }

  // ---------- the evidence behind a reply ----------

  ghost predicate At(w: World, r: RequestId, request: Request, phase: Phase) {
    r in w.requests && w.requests[r] == Progress(request, phase)
  }

  // The last step that moved request r before state j.
  lemma {:induction false} LastMove(c: Config, ws: seq<World>, steps: seq<Step>, j: nat, r: RequestId) returns (i: nat)
    requires Trace(c, ws, steps) && ws[0].requests == map[] && j < |ws| && r in ws[j].requests
    requires !ws[j].requests[r].phase.Arrived?
    ensures i < j && At(ws[i + 1], r, ws[j].requests[r].request, ws[j].requests[r].phase)
    ensures r in ws[i].requests && ws[i].requests[r].request == ws[j].requests[r].request
    ensures ws[i].requests[r].phase != ws[j].requests[r].phase
  {
    assert ws[j] == Apply(c, ws[j - 1], steps[j - 1]);
    assert r in ws[j - 1].requests;
    if ws[j - 1].requests[r] == ws[j].requests[r] {
      i := LastMove(c, ws, steps, j - 1, r);
    } else {
      i := j - 1;
    }
  }

  // ---------- what a request, and what a listing, must be like ----------

  // The token carries p, made with the current secret or, for unlocking in the grace window, the previous one; it is
  // for this address and prompt and unexpired, and for unlocking also for this action, origin, network and contract,
  // where both sides name one.
  ghost predicate Accepted(c: Config, request: Request, now: Time, p: Payload) {
    && request.token.Token? && request.token.payload == p && p.address == request.address && p.expiresAt >= now
    && match request
       case WebhookProof(token, _, _) => token.madeWith == c.secret && p.promptId == "webhook-registration"
       case Unlocking(token, promptId, address, _, origin) =>
         && promptId != "" && address != "" && p.promptId == promptId && p.action == "unlock"
         && (token.madeWith == c.secret
             || (token.madeWith == c.previous && c.previous != "" && c.rotatedAt != 0
                 && now < c.rotatedAt + c.gracePeriod))
         && (origin == "" || p.origin == "*" || p.origin == origin)
         && (c.network == "" || p.network == "" || p.network == c.network)
         && (c.contract == "" || p.contract == "" || p.contract == c.contract)
  }

  lemma AcceptedExactly(c: Config, request: Request, now: Time, p: Payload)
    ensures CheckRequest(c, request, now) == Some(p) <==> Accepted(c, request, now, p)
  {
  }

  // What was signed is what the listing says. A signed price is its price, "" if it has none; a signed version is its
  // source, else its sales count, else ""; and a signed listing hash binds its number, owner, price, asset, revision
  // and expiry, unless it has no owner.
  ghost predicate TermsMatch(p: Payload, id: int, listing: Listing) {
    && (p.expectedPrice.Some? ==>
          if listing.price.Some? then p.expectedPrice == listing.price else p.expectedPrice.value == "")
    && (p.promptVersion.Some? ==>
          if listing.source.Some? then p.promptVersion == listing.source
          else if listing.sales.Some? then p.promptVersion == listing.sales
          else p.promptVersion.value == "")
    && (p.listingHash.Some? && listing.creator != "" ==>
          var hash := p.listingHash.value;
          && hash.promptId == Decimal(id) && hash.owner == listing.creator
          && (if listing.price.Some? then hash.price == listing.price.value else hash.price == "")
          && hash.asset == listing.asset && hash.version == listing.revision && hash.expiresAt == listing.expiresAt)
  }

  // Where a request that takes its nonce gets to.
  function PastGate(request: Request, p: Payload): Phase {
    if request.WebhookProof? then OwnershipProven(p) else NonceConsumed(p)
  }

  // Each check lets a request on exactly when what it stands for holds at that moment, and refuses it otherwise. It
  // moves that request alone, and only taking a nonce changes anything else: the nonce is retained until its token has
  // expired, and at least for a minute.
  lemma GatesOpenExactly(c: Config, w: World, s: Step)
    requires Enabled(w, s)
    requires s.Verify? || s.Consume? || s.CheckReplay? || s.ReadEntitlement? || s.ReadListing? || s.Decrypt?
    ensures var request, phase := w.requests[s.r].request, w.requests[s.r].phase;
            var w' := Apply(c, w, s);
            var phase' := w'.requests[s.r].phase;
            && w'.requests == w.requests[s.r := Progress(request, phase')]
            && w'.now == w.now && w'.access == w.access && w'.listings == w.listings
            && (phase'.Refused? || !s.Consume? ==> w'.ledger == w.ledger)
            && match s
               case Verify(_) =>
                 if phase'.Verified? then
                   Accepted(c, request, w.now, phase'.payload)
                   && request.signature == Signature(request.address, phase'.payload)
                 else
                   phase'.Refused? && forall p :: Accepted(c, request, w.now, p) ==>
                                                    request.signature != Signature(request.address, p)
               case Consume(_) =>
                 var p := phase.payload;
                 if p.nonce in w.ledger then phase'.Refused?
                 else
                   && phase' == PastGate(request, p) && w'.ledger.Keys == w.ledger.Keys + {p.nonce}
                   && (forall n :: n in w.ledger ==> w'.ledger[n] == w.ledger[n])
                   && w'.ledger[p.nonce] >= p.expiresAt && w'.ledger[p.nonce] >= w.now + 60_000
                   && (w'.ledger[p.nonce] == p.expiresAt || w'.ledger[p.nonce] == w.now + 60_000)
               case CheckReplay(_, unseen) =>
                 if unseen && BigInt(request.promptId).Some?
                 then phase' == ReplayChecked(phase.payload, BigInt(request.promptId).value)
                 else phase'.Refused?
               case ReadEntitlement(_) =>
                 if (request.address, phase.id) in w.access then phase' == Entitled(phase.payload, phase.id)
                 else phase'.Refused?
               case ReadListing(_) =>
                 if phase.id in w.listings && TermsMatch(phase.payload, phase.id, w.listings[phase.id])
                 then phase' == TermsMatched(phase.payload, phase.id, w.listings[phase.id])
                 else phase'.Refused?
               case Decrypt(_, outcome) =>
                 if outcome == Some(phase.listing.contentHash)
                 then phase' == Unlocked(phase.payload, phase.id, phase.listing, phase.listing.contentHash)
                 else phase'.Refused?
  {
    var request := w.requests[s.r].request;
    match s
    case Verify(_) =>
      forall p
        ensures CheckRequest(c, request, w.now) == Some(p) <==> Accepted(c, request, w.now, p)
      {
        AcceptedExactly(c, request, w.now, p);
      }
    case ReadListing(_) =>
      var phase := w.requests[s.r].phase;
      if phase.id in w.listings {
        TermsMatchExactly(phase.payload, phase.id, w.listings[phase.id]);
      }
    case _ =>
  }

  lemma TermsMatchExactly(p: Payload, id: int, listing: Listing)
    ensures TermsMatch(p, id, listing) <==> !TermsChanged(p, listing) && !SnapshotDrifted(p, Decimal(id), listing)
  {
  }

  // The moves that lead to each phase, and what each one saw.
  ghost predicate SawGenuine(c: Config, w: World, s: Step, r: RequestId, request: Request, p: Payload) {
    && s == Verify(r) && At(w, r, request, Arrived)
    && Accepted(c, request, w.now, p) && request.signature == Signature(request.address, p)
  }

  ghost predicate TookNonce(w: World, s: Step, r: RequestId, request: Request, p: Payload) {
    s == Consume(r) && At(w, r, request, Verified(p)) && p.nonce !in w.ledger
  }

  // id is the number the prompt id stands for, however it is written.
  ghost predicate SawUnseen(w: World, s: Step, r: RequestId, request: Request, p: Payload, id: int) {
    && s == CheckReplay(r, true) && At(w, r, request, NonceConsumed(p)) && request.Unlocking?
    && BigInt(request.promptId) == Some(id)
  }

  ghost predicate SawAccess(w: World, s: Step, r: RequestId, request: Request, p: Payload, id: int) {
    && s == ReadEntitlement(r) && At(w, r, request, ReplayChecked(p, id)) && request.Unlocking?
    && (request.address, id) in w.access
  }

  ghost predicate SawTerms(w: World, s: Step, r: RequestId, request: Request, p: Payload, id: int, listing: Listing) {
    && s == ReadListing(r) && At(w, r, request, Entitled(p, id)) && request.Unlocking?
    && id in w.listings && listing == w.listings[id] && TermsMatch(p, id, listing)
  }

  lemma MoveInto(c: Config, w: World, s: Step, r: RequestId, request: Request, phase: Phase)
    requires Enabled(w, s) && r in w.requests && w.requests[r].request == request && w.requests[r].phase != phase
    requires At(Apply(c, w, s), r, request, phase)
    ensures match phase
            case Arrived => false
            case Verified(p) => SawGenuine(c, w, s, r, request, p)
            case NonceConsumed(p) => TookNonce(w, s, r, request, p) && request.Unlocking?
            case ReplayChecked(p, id) => SawUnseen(w, s, r, request, p, id)
            case Entitled(p, id) => SawAccess(w, s, r, request, p, id)
            case TermsMatched(p, id, listing) => SawTerms(w, s, r, request, p, id, listing)
            case Unlocked(p, id, listing, plaintext) =>
              s == Decrypt(r, Some(plaintext)) && At(w, r, request, TermsMatched(p, id, listing))
                && plaintext == listing.contentHash
            case OwnershipProven(p) => TookNonce(w, s, r, request, p) && request.WebhookProof?
            case Refused => true
  {
    match phase
    case Verified(p) => AcceptedExactly(c, request, w.now, p);
    case TermsMatched(p, id, listing) => TermsMatchExactly(p, id, listing);
    case _ =>
  }

  lemma LastMoveInto(c: Config, ws: seq<World>, steps: seq<Step>, j: nat, r: RequestId, request: Request,
        phase: Phase) returns (i: nat)
    requires Trace(c, ws, steps) && ws[0].requests == map[] && j < |ws| && At(ws[j], r, request, phase)
              && !phase.Arrived?
    ensures i < j && Enabled(ws[i], steps[i]) && ws[i + 1] == Apply(c, ws[i], steps[i])
    ensures r in ws[i].requests && ws[i].requests[r].request == request && ws[i].requests[r].phase != phase
    ensures At(Apply(c, ws[i], steps[i]), r, request, phase)
  {
    i := LastMove(c, ws, steps, j, r);
  }

  // Every request that took a nonce for itself had verified token and signature before.
  lemma NonceEvidence(c: Config, ws: seq<World>, steps: seq<Step>, j: nat, r: RequestId, request: Request, p: Payload)
    returns (verified: nat)
    requires Trace(c, ws, steps) && ws[0].requests == map[] && j < |ws| && At(ws[j], r, request, Verified(p))
    ensures verified < j && SawGenuine(c, ws[verified], steps[verified], r, request, p)
  {
    verified := LastMoveInto(c, ws, steps, j, r, request, Verified(p));
    MoveInto(c, ws[verified], steps[verified], r, request, Verified(p));
  }

  // A plaintext reply comes from a request that itself, in this order: verified its token and signature, took
  // its nonce, passed the replay check, saw entitlement on the chain, read a listing whose price and version
  // match the signed terms and whose snapshot hash, if it has one, matches a signed hash, and decrypted a
  // plaintext with that listing's content hash.
  lemma PlaintextEvidence(c: Config, ws: seq<World>, steps: seq<Step>, j: nat, r: RequestId, request: Request,
                          p: Payload, id: int, listing: Listing, plaintext: string)
    returns (verified: nat, consumed: nat, checked: nat, entitled: nat, matched: nat)
    requires Trace(c, ws, steps) && ws[0].requests == map[] && j < |ws|
    requires At(ws[j], r, request, Unlocked(p, id, listing, plaintext))
    ensures verified < consumed < checked < entitled < matched < j
    ensures SawGenuine(c, ws[verified], steps[verified], r, request, p)
    ensures TookNonce(ws[consumed], steps[consumed], r, request, p)
    ensures SawUnseen(ws[checked], steps[checked], r, request, p, id)
    ensures SawAccess(ws[entitled], steps[entitled], r, request, p, id)
    ensures SawTerms(ws[matched], steps[matched], r, request, p, id, listing)
    ensures plaintext == listing.contentHash
  {
    var decrypted := LastMoveInto(c, ws, steps, j, r, request, Unlocked(p, id, listing, plaintext));
    MoveInto(c, ws[decrypted], steps[decrypted], r, request, Unlocked(p, id, listing, plaintext));
    matched := LastMoveInto(c, ws, steps, decrypted, r, request, TermsMatched(p, id, listing));
    MoveInto(c, ws[matched], steps[matched], r, request, TermsMatched(p, id, listing));
    entitled := LastMoveInto(c, ws, steps, matched, r, request, Entitled(p, id));
    MoveInto(c, ws[entitled], steps[entitled], r, request, Entitled(p, id));
    checked := LastMoveInto(c, ws, steps, entitled, r, request, ReplayChecked(p, id));
    MoveInto(c, ws[checked], steps[checked], r, request, ReplayChecked(p, id));
    consumed := LastMoveInto(c, ws, steps, checked, r, request, NonceConsumed(p));
    MoveInto(c, ws[consumed], steps[consumed], r, request, NonceConsumed(p));
    verified := NonceEvidence(c, ws, steps, consumed, r, request, p);
  }

  // A token that proves webhook ownership is of no use for unlocking, in any run, and the other way round.
  lemma TokensAreNotShared(c: Config, ws: seq<World>, steps: seq<Step>, j: nat, unlock: RequestId, webhook: RequestId,
                           request: Request, proof: Request, p: Payload, q: Payload, id: int, listing: Listing,
                           plaintext: string)
    requires Trace(c, ws, steps) && ws[0].requests == map[] && j < |ws|
    requires At(ws[j], unlock, request, Unlocked(p, id, listing, plaintext))
              && At(ws[j], webhook, proof, OwnershipProven(q))
    ensures p != q && request.token != proof.token
  {
    UnlockedIsNumber(c, ws, steps, j, unlock, request, p, id, listing, plaintext);
    ProofIsForWebhook(c, ws, steps, j, webhook, proof, q);
    WordIsNoNumber(WEBHOOK_CHALLENGE_PROMPT_ID);
  }

  lemma UnlockedIsNumber(c: Config, ws: seq<World>, steps: seq<Step>, j: nat, r: RequestId, request: Request,
                         p: Payload, id: int, listing: Listing, plaintext: string)
    requires Trace(c, ws, steps) && ws[0].requests == map[] && j < |ws|
    requires At(ws[j], r, request, Unlocked(p, id, listing, plaintext))
    ensures request.token.Token? && request.token.payload == p && BigInt(p.promptId) == Some(id)
  {
    var v, n, k, e, m := PlaintextEvidence(c, ws, steps, j, r, request, p, id, listing, plaintext);
  }

  lemma ProofIsForWebhook(c: Config, ws: seq<World>, steps: seq<Step>, j: nat, r: RequestId, proof: Request, q: Payload)
    requires Trace(c, ws, steps) && ws[0].requests == map[] && j < |ws| && At(ws[j], r, proof, OwnershipProven(q))
    ensures proof.token.Token? && proof.token.payload == q && q.promptId == WEBHOOK_CHALLENGE_PROMPT_ID
  {
    var i := LastMoveInto(c, ws, steps, j, r, proof, OwnershipProven(q));
    MoveInto(c, ws[i], steps[i], r, proof, OwnershipProven(q));
    var v := NonceEvidence(c, ws, steps, i, r, proof, q);
  }

  // ---------- a request that waits too long ----------

  ghost predicate Leads(c: Config, w: World, w': World) {
    exists ws: seq<World>, steps: seq<Step> :: Trace(c, ws, steps) && ws[0] == w && ws[|steps|] == w'
  }

  lemma TraceOn(c: Config, ws: seq<World>, steps: seq<Step>, s: Step, w: World)
    requires Trace(c, ws, steps) && Enabled(ws[|steps|], s) && w == Apply(c, ws[|steps|], s)
    ensures Trace(c, ws + [w], steps + [s])
  {
  }

  lemma LeadsOn(c: Config, w: World, w': World, s: Step)
    requires Leads(c, w, w') && Enabled(w', s)
    ensures Leads(c, w, Apply(c, w', s))
  {
    var ws: seq<World>, steps: seq<Step> :| Trace(c, ws, steps) && ws[0] == w && ws[|steps|] == w';
    TraceOn(c, ws, steps, s, Apply(c, w', s));
  }

  function Beginning(now: Time): World {
    World(now, map[], {}, map[], map[])
  }

  // A request sent twice, both verified in time: at every moment later than the first one's retention the second
  // can still take the same nonce. With NonceIsSingleUse, a nonce is taken again at some moment if and only if
  // that moment is later than its retention.
  lemma LateConsumptionPasses(c: Config, request: Request, p: Payload, now: Time, later: Time) returns (w: World)
    requires CheckRequest(c, request, now) == Some(p) && request.signature == Signature(request.address, p)
    requires later > RetainUntil(p, now)
    ensures w.now == later && p.nonce !in w.ledger
    ensures At(w, 1, request, PastGate(request, p)) && At(w, 2, request, Verified(p))
    ensures Leads(c, Beginning(now), w)
    ensures Enabled(w, Consume(2)) && At(Apply(c, w, Consume(2)), 2, request, PastGate(request, p))
  {
    var w5 := BothVerified(c, request, p, now);
    LeadsOn(c, Beginning(now), w5, Consume(1));
    var until := RetainUntil(p, now);
    var w6 := w5.(ledger := map[p.nonce := until],
                  requests := w5.requests[1 := Progress(request, PastGate(request, p))]);
    w := ForgetLater(c, Beginning(now), w6, p.nonce, later);
  }

  lemma ForgetLater(c: Config, w0: World, w6: World, nonce: Nonce, later: Time) returns (w: World)
    requires Leads(c, w0, w6) && nonce in w6.ledger && w6.ledger == map[nonce := w6.ledger[nonce]]
    requires later > w6.ledger[nonce] && later >= w6.now
    ensures Leads(c, w0, w) && w == w6.(now := later, ledger := map[])
  {
    LeadsOn(c, w0, w6, Tick(later - w6.now));
    var w7 := w6.(now := later);
    LeadsOn(c, w0, w7, Evict(nonce));
    w := w7.(ledger := map[]);
    assert w7.ledger - {nonce} == map[];
  }

  lemma BothVerified(c: Config, request: Request, p: Payload, now: Time) returns (w: World)
    requires CheckRequest(c, request, now) == Some(p) && request.signature == Signature(request.address, p)
    ensures Leads(c, Beginning(now), w)
    ensures w == Beginning(now).(requests := map[1 := Progress(request, Verified(p)),
              2 := Progress(request, Verified(p))])
  {
    var w0 := Beginning(now);
    assert Trace(c, [w0], []);
    LeadsOn(c, w0, w0, Arrive(1, request));
    var w1 := w0.(requests := map[1 := Progress(request, Arrived)]);
    LeadsOn(c, w0, w1, Arrive(2, request));
    var w2 := w0.(requests := map[1 := Progress(request, Arrived), 2 := Progress(request, Arrived)]);
    LeadsOn(c, w0, w2, Verify(1));
    var w3 := w0.(requests := map[1 := Progress(request, Verified(p)), 2 := Progress(request, Arrived)]);
    LeadsOn(c, w0, w3, Verify(2));
    w := w0.(requests := map[1 := Progress(request, Verified(p)), 2 := Progress(request, Verified(p))]);
  }
}
