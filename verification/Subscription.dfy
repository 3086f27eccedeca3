/** The polling event consumer of src/hooks/useSubscription.ts: the paging record, and any number of poll
    loops that share it against a server whose ledger keeps closing. */
module Subscription {
  import opened Options
  import opened Ledger

  const PAGE_LIMIT := 10

  // paging[id]. A paging token is the event it was issued for.
  datatype Paging = Paging(lastLedgerStart: Option<nat>, pagingToken: Option<nat>)

  // Where a getEvents request starts.
  datatype Point = FromLedger(start: nat) | AfterEvent(cursor: nat)

  // A getEvents response: events from..to of the log, and the latest closed ledger.
  datatype Response = Response(from: nat, to: nat, latestLedger: nat)

  function RequestPoint(paging: Paging): Point
    requires paging.lastLedgerStart.Some?
  {
    if paging.pagingToken.Some? then AfterEvent(paging.pagingToken.value) else FromLedger(paging.lastLedgerStart.value)
  }

  function FirstEvent(log: seq<nat>, point: Point): nat {
    match point
    case FromLedger(start) => FirstAt(log, start)
    case AfterEvent(cursor) => cursor + 1
  }

  // The server's answer: at most PAGE_LIMIT events after the point.
  function Answer(log: seq<nat>, latest: nat, point: Point): Response {
    var from := FirstEvent(log, point);
    var end := if from >= |log| then from else if from + PAGE_LIMIT < |log| then from + PAGE_LIMIT else |log|;
    Response(from, end, latest)
  }

  // The answer holds the first ten events after the point, or as many as there are.
  lemma AnswerMeaning(log: seq<nat>, latest: nat, point: Point)
    requires Sorted(log)
    ensures var r := Answer(log, latest, point);
            && r.from <= r.to && r.latestLedger == latest
            && (forall k: nat :: k < |log| ==>
                  (r.from <= k <==> match point
                                    case FromLedger(start) => log[k] >= start
                                    case AfterEvent(cursor) => k > cursor))
            && (r.from <= |log| ==>
                  r.to <= |log| && r.to - r.from == if |log| - r.from < 10 then |log| - r.from else 10)
  {
    if point.FromLedger? {
      FirstAtSplits(log, point.start);
    }
  }

  function Advance(paging: Paging, r: Response): Paging {
    Paging(if r.latestLedger > 0 then Some(r.latestLedger) else paging.lastLedgerStart,
           if r.from < r.to then Some(r.to - 1) else None)
  }

  function Upto(from: nat, to: nat): (events: seq<nat>)
    decreases to - from
  {
    if from >= to then [] else [from] + Upto(from + 1, to)
  }

  // The module-level record and the handling of one response; delivered is the callback's log.
  class Poller {
    var lastLedgerStart: Option<nat>
    var pagingToken: Option<nat>
    var delivered: seq<nat>

    ghost function Record(): Paging
      reads this
    {
      Paging(lastLedgerStart, pagingToken)
    }

    constructor ()
      ensures Record() == Paging(None, None) && delivered == []
    {
      lastLedgerStart, pagingToken, delivered := None, None, [];
    }

    // The head of pollEvents: fetch the latest ledger only when there is none to start from.
    method Prepare(latestSequence: nat) returns (point: Point)
      modifies this`lastLedgerStart
      ensures lastLedgerStart == if old(lastLedgerStart) == None || old(lastLedgerStart) == Some(0)
                                 then Some(latestSequence) else old(lastLedgerStart)
      ensures point == RequestPoint(Record())
    {
      if lastLedgerStart.None? || lastLedgerStart.value == 0 {
        lastLedgerStart := Some(latestSequence);
      }
      point := if pagingToken.Some? then AfterEvent(pagingToken.value) else FromLedger(lastLedgerStart.value);
    }

    // The tail of pollEvents. A throwing callback is caught, and its event's token kept all the same.
    method HandleResponse(r: Response)
      requires r.from <= r.to
      modifies this
      ensures Record() == Advance(old(Record()), r)
      ensures delivered == old(delivered) + Upto(r.from, r.to)
    {
      pagingToken := None;
      if r.latestLedger > 0 {
        lastLedgerStart := Some(r.latestLedger);
      }
      var event := r.from;
      while event < r.to
        invariant r.from <= event <= r.to
        invariant lastLedgerStart == Advance(old(Record()), r).lastLedgerStart
        invariant delivered + Upto(event, r.to) == old(delivered) + Upto(r.from, r.to)
        invariant pagingToken == if r.from < event then Some(event - 1) else None
      {
        assert delivered + ([event] + Upto(event + 1, r.to)) == (delivered + [event]) + Upto(event + 1, r.to);
        delivered := delivered + [event];
        pagingToken := Some(event);
        event := event + 1;
      }
    }
  }

  // ---------- interleaved poll loops ----------

  type LoopId = nat
  datatype Phase = Idle | FetchingLatest | Waiting(point: Point) | Answered(point: Point, response: Response)

  datatype World = World(log: seq<nat>, latest: nat, paging: Paging, loops: map<LoopId, Phase>, delivered: seq<nat>)

  datatype Step =
    | Close(events: nat)
    | Begin(loop: LoopId)
    | Latest(loop: LoopId, sequence: nat)
    | Answering(loop: LoopId)
    | Handling(loop: LoopId)
    | Failing(loop: LoopId)

  function PhaseOf(w: World, p: LoopId): Phase {
    if p in w.loops then w.loops[p] else Idle
  }

  predicate Uninitialised(paging: Paging) {
    paging.lastLedgerStart.None? || paging.lastLedgerStart == Some(0)
  }

  predicate Enabled(w: World, s: Step) {
    match s
    case Close(_) => true
    case Begin(p) => PhaseOf(w, p).Idle?
    case Latest(p, sequence) => PhaseOf(w, p).FetchingLatest? && 0 < sequence <= w.latest
    case Answering(p) => PhaseOf(w, p).Waiting?
    case Handling(p) => PhaseOf(w, p).Answered?
    case Failing(p) => !PhaseOf(w, p).Idle?
  }

  function Apply(w: World, s: Step): World
    requires Enabled(w, s)
  {
    match s
    case Close(n) =>
      w.(log := w.log + seq(n, _ => w.latest + 1), latest := w.latest + 1)
    case Begin(p) =>
      w.(loops := w.loops[p := if Uninitialised(w.paging) then FetchingLatest else Waiting(RequestPoint(w.paging))])
    case Latest(p, sequence) =>
      var paging := w.paging.(lastLedgerStart := Some(sequence));
      w.(paging := paging, loops := w.loops[p := Waiting(RequestPoint(paging))])
    case Answering(p) =>
      var point := PhaseOf(w, p).point;
      w.(loops := w.loops[p := Answered(point, Answer(w.log, w.latest, point))])
    case Handling(p) =>
      var r := PhaseOf(w, p).response;
      w.(paging := Advance(w.paging, r), loops := w.loops[p := Idle], delivered := w.delivered + Upto(r.from, r.to))
    case Failing(p) =>
      w.(loops := w.loops[p := Idle])
  }

  ghost predicate Trace(ws: seq<World>, steps: seq<Step>) {
    && |ws| == |steps| + 1
    && forall i :: 0 <= i < |steps| ==> Enabled(ws[i], steps[i]) && ws[i + 1] == Apply(ws[i], steps[i])
  }
}
