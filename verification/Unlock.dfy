/** The unlock gate (api/prompts/unlock.ts) and the webhook ownership proof (api/webhooks/index.ts): requests
    that interleave at their awaits over one nonce ledger and a chain that keeps changing. */
module Unlock {
  import opened Options
  import opened Text

  type Time = int
  type Secret = string
  type Nonce = string

  const WEBHOOK_CHALLENGE_PROMPT_ID := "webhook-registration"
  const MIN_RETENTION_MS := 60_000

  // The canonical listing hash, taken as the fields it is computed from.
  datatype ListingHash = ListingHash(promptId: string, owner: string, price: string, asset: string,
                                     version: string, expiresAt: string)

  datatype Payload = Payload(address: string, promptId: string, origin: string, network: string, contract: string,
                             action: string, promptVersion: Option<string>, expectedPrice: Option<string>,
                             listingHash: Option<ListingHash>, nonce: Nonce, issuedAt: Time, expiresAt: Time)

  // A MAC is the secret it was made with; a wallet signature is its signer and the challenge it signs.
  datatype Token = Malformed | Token(payload: Payload, madeWith: Secret)
  datatype Signature = Garbage | Signature(signer: string, challenge: Payload)

  datatype Request =
    | Unlocking(token: Token, promptId: string, address: string, signature: Signature, origin: string)
    | WebhookProof(token: Token, address: string, signature: Signature)

  datatype Config = Config(secret: Secret, previous: Secret, rotatedAt: Time, gracePeriod: Time,
                           network: string, contract: string)

  // The on-chain prompt. contentHash is the plaintext it is the hash of.
  datatype Listing = Listing(creator: string, price: Option<string>, source: Option<string>, sales: Option<string>,
                             asset: string, revision: string, expiresAt: string, contentHash: string)

  // ---------- the checks ----------

  function ActiveSecrets(c: Config, now: Time): seq<Secret> {
    [c.secret] + if c.previous != "" && c.rotatedAt != 0 && now - c.rotatedAt < c.gracePeriod then [c.previous] else []
  }

  datatype Context = Context(origin: string, network: string, contract: string, action: Option<string>)

  // verifyChallengeToken; None when it throws.
  function VerifyToken(secrets: seq<Secret>, token: Token, address: string, promptId: string, now: Time,
      ctx: Context): Option<Payload> {
    if token.Malformed? || token.madeWith !in secrets then None
    else
      var p := token.payload;
      if p.address != address || p.promptId != promptId then None
      else if ctx.origin != "" && p.origin != "*" && p.origin != ctx.origin then None
      else if ctx.network != "" && p.network != "" && p.network != ctx.network then None
      else if ctx.contract != "" && p.contract != "" && p.contract != ctx.contract then None
      else if ctx.action.Some? && p.action != ctx.action.value then None
      else if p.expiresAt < now then None
      else Some(p)
  }

  function CheckRequest(c: Config, r: Request, now: Time): Option<Payload> {
    match r
    case Unlocking(token, promptId, address, _, origin) =>
      if promptId == "" || address == "" then None
      else
        VerifyToken(ActiveSecrets(c, now), token, address, promptId, now,
                    Context(origin, c.network, c.contract, Some("unlock")))
    case WebhookProof(token, address, _) =>
      VerifyToken([c.secret], token, address, WEBHOOK_CHALLENGE_PROMPT_ID, now, Context("", "", "", None))
  }

  predicate SignatureValid(r: Request, p: Payload) {
    r.signature == Signature(r.address, p)
  }

  function OrEmpty(s: Option<string>): string {
    if s.Some? then s.value else ""
  }

  function VersionClaim(listing: Listing): string {
    if listing.source.Some? then listing.source.value else OrEmpty(listing.sales)
  }

  predicate TermsChanged(p: Payload, listing: Listing) {
    || (p.expectedPrice.Some? && p.expectedPrice.value != OrEmpty(listing.price))
    || (p.promptVersion.Some? && p.promptVersion.value != VersionClaim(listing))
  }

  function SnapshotHash(promptId: string, listing: Listing): Option<ListingHash> {
    if listing.creator == "" then None
    else Some(ListingHash(promptId, listing.creator, OrEmpty(listing.price), listing.asset, listing.revision,
      listing.expiresAt))
  }

  predicate SnapshotDrifted(p: Payload, promptId: string, listing: Listing) {
    p.listingHash.Some? && SnapshotHash(promptId, listing).Some? && SnapshotHash(promptId, listing) != p.listingHash
  }

  // ---------- interleaved requests ----------

  type RequestId = nat

  datatype Phase =
    | Arrived
    | Verified(payload: Payload)
    | NonceConsumed(payload: Payload)
    | ReplayChecked(payload: Payload, id: int)
    | Entitled(payload: Payload, id: int)
    | TermsMatched(payload: Payload, id: int, listing: Listing)
    | Unlocked(payload: Payload, id: int, listing: Listing, plaintext: string)
    | OwnershipProven(payload: Payload)
    | Refused

  datatype Progress = Progress(request: Request, phase: Phase)

  // ledger: each consumed nonce and until when its entry is retained.
  // Access and listings on the chain go by the number a prompt id stands for.
  datatype World = World(now: Time, ledger: map<Nonce, Time>, access: set<(string, int)>, listings: map<int, Listing>,
                         requests: map<RequestId, Progress>)

  datatype Step =
    | Arrive(r: RequestId, request: Request)
    | Verify(r: RequestId)
    | Consume(r: RequestId)
    | CheckReplay(r: RequestId, unseen: bool)
    | ReadEntitlement(r: RequestId)
    | ReadListing(r: RequestId)
    | Decrypt(r: RequestId, outcome: Option<string>)
    | Fail(r: RequestId)
    | Tick(elapsed: nat)
    | Evict(nonce: Nonce)
    | SetAccess(access: set<(string, int)>)
    | SetListing(promptId: int, listing: Listing)

  predicate InFlight(phase: Phase) {
    !phase.Unlocked? && !phase.OwnershipProven? && !phase.Refused?
  }

  predicate Enabled(w: World, s: Step) {
    match s
    case Arrive(r, _) => r !in w.requests
    case Verify(r) => r in w.requests && w.requests[r].phase.Arrived?
    case Consume(r) => r in w.requests && w.requests[r].phase.Verified?
    case CheckReplay(r, _) => r in w.requests && w.requests[r].phase.NonceConsumed? && w.requests[r].request.Unlocking?
    case ReadEntitlement(r) => r in w.requests && w.requests[r].phase.ReplayChecked? && w.requests[r].request.Unlocking?
    case ReadListing(r) => r in w.requests && w.requests[r].phase.Entitled? && w.requests[r].request.Unlocking?
    case Decrypt(r, _) => r in w.requests && w.requests[r].phase.TermsMatched? && w.requests[r].request.Unlocking?
    case Fail(r) => r in w.requests && InFlight(w.requests[r].phase)
    case Tick(_) => true
    // An entry is gone at the earliest once its retention has passed.
    case Evict(nonce) => nonce in w.ledger && w.ledger[nonce] < w.now
    case SetAccess(_) => true
    case SetListing(_, _) => true
  }

  function RetainUntil(p: Payload, now: Time): Time {
    if p.expiresAt - now > MIN_RETENTION_MS then p.expiresAt else now + MIN_RETENTION_MS
  }

  // Where a request's own step takes it.
  function NextPhase(c: Config, w: World, s: Step): Phase
    requires Enabled(w, s) && (s.Verify? || s.Consume? || s.CheckReplay? || s.ReadEntitlement? || s.ReadListing?
              || s.Decrypt? || s.Fail?)
  {
    var request, phase := w.requests[s.r].request, w.requests[s.r].phase;
    match s
    case Verify(_) =>
      var p := CheckRequest(c, request, w.now);
      if p.Some? && SignatureValid(request, p.value) then Verified(p.value) else Refused
    case Consume(_) =>
      if phase.payload.nonce in w.ledger then Refused
      else if request.WebhookProof? then OwnershipProven(phase.payload)
      else NonceConsumed(phase.payload)
    case CheckReplay(_, unseen) =>
      var id := BigInt(request.promptId);
      if unseen && id.Some? then ReplayChecked(phase.payload, id.value) else Refused
    case ReadEntitlement(_) =>
      if (request.address, phase.id) in w.access then Entitled(phase.payload, phase.id) else Refused
    case ReadListing(_) =>
      if phase.id !in w.listings || TermsChanged(phase.payload, w.listings[phase.id])
         || SnapshotDrifted(phase.payload, Decimal(phase.id), w.listings[phase.id])
      then Refused
      else TermsMatched(phase.payload, phase.id, w.listings[phase.id])
    case Decrypt(_, outcome) =>
      if outcome == Some(phase.listing.contentHash)
        then Unlocked(phase.payload, phase.id, phase.listing, outcome.value) else Refused
    case Fail(_) => Refused
  }

  function Apply(c: Config, w: World, s: Step): World
    requires Enabled(w, s)
  {
    match s
    case Arrive(r, request) => w.(requests := w.requests[r := Progress(request, Arrived)])
    case Tick(elapsed) => w.(now := w.now + elapsed)
    case Evict(nonce) => w.(ledger := w.ledger - {nonce})
    case SetAccess(access) => w.(access := access)
    case SetListing(promptId, listing) => w.(listings := w.listings[promptId := listing])
    case Consume(r) =>
      var p := w.requests[r].phase.payload;
      var moved := w.(requests := w.requests[r := w.requests[r].(phase := NextPhase(c, w, s))]);
      if p.nonce in w.ledger then moved else moved.(ledger := w.ledger[p.nonce := RetainUntil(p, w.now)])
    case _ => w.(requests := w.requests[s.r := w.requests[s.r].(phase := NextPhase(c, w, s))])
  }

  ghost predicate Trace(c: Config, ws: seq<World>, steps: seq<Step>) {
    && |ws| == |steps| + 1
    && forall i :: 0 <= i < |steps| ==> Enabled(ws[i], steps[i]) && ws[i + 1] == Apply(c, ws[i], steps[i])
  }
}
