/** No event is lost and first deliveries come in ledger order, however many poll loops share the record;
    one loop alone re-delivers only within the ledger it restarted on. */
module SubscriptionTheorems {
  import opened Options
  import opened Ledger
  import opened Subscription

  // The first event at or after s0 that has not been delivered yet.
  function Next(delivered: seq<nat>, s0: nat): nat {
    if delivered == [] then s0
    else
      var before := Next(delivered[..|delivered| - 1], s0);
      var last := delivered[|delivered| - 1];
      if last < before then before else last + 1
  }

  // Every delivery is of an event all of whose predecessors from s0 on were delivered before.
  predicate InOrder(delivered: seq<nat>, s0: nat) {
    delivered == [] ||
    (var before := delivered[..|delivered| - 1];
     InOrder(before, s0) && delivered[|delivered| - 1] <= Next(before, s0))
  }

  lemma {:induction false} DeliveredIsAnInterval(delivered: seq<nat>, s0: nat)
    requires InOrder(delivered, s0)
    ensures s0 <= Next(delivered, s0)
    ensures forall k :: k in delivered ==> k < Next(delivered, s0)
    ensures forall k :: s0 <= k < Next(delivered, s0) ==> k in delivered
  {
    if delivered != [] {
      var before := delivered[..|delivered| - 1];
      DeliveredIsAnInterval(before, s0);
      assert delivered == before + [delivered[|delivered| - 1]];
    }
  }

  lemma DeliverOne(delivered: seq<nat>, s0: nat, event: nat)
    requires InOrder(delivered, s0) && event <= Next(delivered, s0)
    ensures InOrder(delivered + [event], s0)
    ensures Next(delivered + [event], s0) == (if event == Next(delivered, s0) then event + 1 else Next(delivered, s0))
  {
    assert (delivered + [event])[..|delivered|] == delivered;
  }

  lemma {:induction false} DeliverPage(delivered: seq<nat>, s0: nat, from: nat, to: nat)
    requires InOrder(delivered, s0) && from <= Next(delivered, s0)
    ensures InOrder(delivered + Upto(from, to), s0)
    ensures Next(delivered + Upto(from, to), s0)
            == (if from < to && Next(delivered, s0) < to then to else Next(delivered, s0))
    decreases if from < to then to - from else 0
  {
    if from >= to {
      assert delivered + Upto(from, to) == delivered;
    } else {
      DeliverOne(delivered, s0, from);
      assert delivered + Upto(from, to) == (delivered + [from]) + Upto(from + 1, to);
      DeliverPage(delivered + [from], s0, from + 1, to);
    }
  }

  // ---------- any number of loops ----------

  // start is the ledger the record was first given; the first event at or after it is the first one owed.
  ghost predicate PointOk(w: World, point: Point, start: nat) {
    && FirstEvent(w.log, point) <= Undelivered(w, start)
    && (point.FromLedger? ==> point.start <= w.latest)
  }

  // The first event owed that has not been delivered yet.
  function Undelivered(w: World, start: nat): nat {
    Next(w.delivered, FirstAt(w.log, start))
  }

  // An answer names delivered events or the next ones; an empty one had seen everything up to its latest ledger.
  ghost predicate ResponseOk(w: World, r: Response, start: nat) {
    && r.from <= Undelivered(w, start)
    && r.from <= r.to <= |w.log|
    && 0 < r.latestLedger <= w.latest && start <= r.latestLedger
    && (r.from == r.to ==> FirstAt(w.log, r.latestLedger) <= r.from)
  }

  ghost predicate PhaseOk(w: World, phase: Phase, start: nat) {
    match phase
    case Idle => true
    case FetchingLatest => true
    case Waiting(point) => PointOk(w, point, start)
    case Answered(_, response) => ResponseOk(w, response, start)
  }

  ghost predicate LedgerOk(w: World) {
    0 < w.latest && Sorted(w.log) && forall k :: 0 <= k < |w.log| ==> w.log[k] <= w.latest
  }

  ghost predicate Inv(w: World, start: nat) {
    && LedgerOk(w) && start <= w.latest && !Uninitialised(w.paging)
    && InOrder(w.delivered, FirstAt(w.log, start)) && Undelivered(w, start) <= |w.log|
    && PointOk(w, RequestPoint(w.paging), start)
    && w.paging.lastLedgerStart.value <= w.latest
    && forall p :: p in w.loops ==> PhaseOk(w, w.loops[p], start)
  }

  // The record as the module creates it; loops may be fetching a ledger to start it with.
  ghost predicate Unstarted(w: World) {
    && LedgerOk(w) && w.delivered == [] && w.paging == Paging(None, None)
    && forall p :: p in w.loops ==> w.loops[p].Idle? || w.loops[p].FetchingLatest?
  }

  // A starting ledger that arrives when the record already has one does no harm: the next request goes by a token
  // all the same, or the new ledger starts no later than the first event still owed.
  predicate SafeLatest(w: World, sequence: nat, start: nat) {
    w.paging.pagingToken.Some? || FirstAt(w.log, sequence) <= Undelivered(w, start)
  }

  predicate SafeStep(w: World, s: Step, start: nat) {
    s.Latest? ==> SafeLatest(w, s.sequence, start)
  }

  // The record has just been given its starting ledger and no loop is still fetching one.
  ghost predicate Started(w: World, start: nat) {
    && LedgerOk(w) && w.delivered == [] && 0 < start <= w.latest && w.paging == Paging(Some(start), None)
    && forall p :: p in w.loops ==> w.loops[p] == Idle || w.loops[p] == Waiting(FromLedger(start))
  }

  lemma CloseKeepsLedger(w: World, n: nat)
    requires LedgerOk(w)
    ensures var w' := Apply(w, Close(n));
            LedgerOk(w') && |w.log| <= |w'.log| && forall s: nat :: s <= w.latest ==>
              FirstAt(w'.log, s) == FirstAt(w.log, s)
  {
    forall s: nat | s <= w.latest
      ensures FirstAt(Apply(w, Close(n)).log, s) == FirstAt(w.log, s)
    {
      FirstAtIsStable(w.log, seq(n, _ => w.latest + 1), s);
    }
  }

  lemma CloseKeepsPhase(w: World, n: nat, phase: Phase, start: nat)
    requires LedgerOk(w) && start <= w.latest && PhaseOk(w, phase, start)
    ensures PhaseOk(Apply(w, Close(n)), phase, start)
  {
    CloseKeepsLedger(w, n);
  }

  lemma CloseKeepsInv(w: World, n: nat, start: nat)
    requires Inv(w, start)
    ensures var w' := Apply(w, Close(n)); Inv(w', start) && FirstAt(w'.log, start) == FirstAt(w.log, start)
  {
    var w' := Apply(w, Close(n));
    CloseKeepsLedger(w, n);
    CloseKeepsPhase(w, n, Waiting(RequestPoint(w.paging)), start);
    forall p | p in w.loops
      ensures PhaseOk(w', w.loops[p], start)
    {
      CloseKeepsPhase(w, n, w.loops[p], start);
    }
  }

  lemma AnswerIsOk(w: World, point: Point, start: nat)
    requires Inv(w, start) && PointOk(w, point, start)
    ensures ResponseOk(w, Answer(w.log, w.latest, point), start)
  {
  }

  lemma HandleKeepsInv(w: World, r: Response, p: LoopId, start: nat)
    requires Inv(w, start) && ResponseOk(w, r, start)
    requires PhaseOf(w, p).Answered? && PhaseOf(w, p).response == r
    ensures Inv(Apply(w, Handling(p)), start)
  {
    var s0 := FirstAt(w.log, start);
    var w' := Apply(w, Handling(p));
    DeliverPage(w.delivered, s0, r.from, r.to);
    forall q | q in w'.loops
      ensures PhaseOk(w', w'.loops[q], start)
    {
      assert q != p ==> PhaseOk(w, w.loops[q], start);
    }
  }

  lemma PhaseKeepsInv(w: World, p: LoopId, phase: Phase, start: nat)
    requires Inv(w, start) && PhaseOk(w, phase, start)
    ensures Inv(w.(loops := w.loops[p := phase]), start)
  {
    var w' := w.(loops := w.loops[p := phase]);
    forall q | q in w'.loops
      ensures PhaseOk(w', w'.loops[q], start)
    {
      assert q != p ==> PhaseOk(w, w.loops[q], start);
      assert PhaseOk(w', w'.loops[q], start) == PhaseOk(w, w'.loops[q], start);
    }
  }

  // A later starting ledger keeps the invariant exactly when it is safe.
  lemma LatestKeepsInvExactly(w: World, p: LoopId, sequence: nat, start: nat)
    requires Inv(w, start) && Enabled(w, Latest(p, sequence))
    ensures Inv(Apply(w, Latest(p, sequence)), start) <==> SafeLatest(w, sequence, start)
  {
    var paging := w.paging.(lastLedgerStart := Some(sequence));
    var given := w.(paging := paging);
    if SafeLatest(w, sequence, start) {
      assert PointOk(given, RequestPoint(paging), start);
      forall q | q in w.loops
        ensures PhaseOk(given, w.loops[q], start)
      {
        assert PhaseOk(w, w.loops[q], start);
      }
      PhaseKeepsInv(given, p, Waiting(RequestPoint(paging)), start);
    }
  }

  lemma ApplyKeepsInv(w: World, s: Step, start: nat)
    requires Inv(w, start) && Enabled(w, s) && SafeStep(w, s, start)
    ensures Inv(Apply(w, s), start) && FirstAt(Apply(w, s).log, start) == FirstAt(w.log, start)
  {
    match s
    case Close(n) => CloseKeepsInv(w, n, start);
    case Begin(p) => PhaseKeepsInv(w, p, Waiting(RequestPoint(w.paging)), start);
    case Failing(p) => PhaseKeepsInv(w, p, Idle, start);
    case Answering(p) =>
      var point := PhaseOf(w, p).point;
      AnswerIsOk(w, point, start);
      PhaseKeepsInv(w, p, Answered(point, Answer(w.log, w.latest, point)), start);
    case Handling(p) => HandleKeepsInv(w, PhaseOf(w, p).response, p, start);
    case Latest(p, sequence) => LatestKeepsInvExactly(w, p, sequence, start);
  }

  lemma FirstLatest(w: World, p: LoopId, sequence: nat)
    requires Unstarted(w) && Enabled(w, Latest(p, sequence))
    ensures Inv(Apply(w, Latest(p, sequence)), sequence)
  {
  }

  lemma UnstartedStep(w: World, s: Step)
    requires Unstarted(w) && Enabled(w, s) && !s.Latest?
    ensures Unstarted(Apply(w, s))
  {
  }

  // Step f gives the record its first ledger.
  ghost predicate GivesFirst(steps: seq<Step>, f: nat) {
    f < |steps| && steps[f].Latest? && forall k :: 0 <= k < f ==> !steps[k].Latest?
  }

  lemma {:induction false} NothingBeforeFirst(ws: seq<World>, steps: seq<Step>, f: nat, i: nat)
    requires Trace(ws, steps) && Unstarted(ws[0]) && GivesFirst(steps, f) && i <= f
    ensures Unstarted(ws[i])
  {
    if i > 0 {
      NothingBeforeFirst(ws, steps, f, i - 1);
      UnstartedStep(ws[i - 1], steps[i - 1]);
    }
  }

  lemma {:induction false} DeliveredFromStart(ws: seq<World>, steps: seq<Step>, f: nat, i: nat)
    requires Trace(ws, steps) && Unstarted(ws[0]) && GivesFirst(steps, f) && f < i < |ws|
    requires forall k :: f < k < i ==> SafeStep(ws[k], steps[k], steps[f].sequence)
    ensures Inv(ws[i], steps[f].sequence)
    ensures FirstAt(ws[i].log, steps[f].sequence) == FirstAt(ws[f].log, steps[f].sequence)
  {
    var start := steps[f].sequence;
    if i == f + 1 {
      NothingBeforeFirst(ws, steps, f, f);
      assert ws[i] == Apply(ws[f], steps[f]);
      FirstLatest(ws[f], steps[f].loop, start);
    } else {
      DeliveredFromStart(ws, steps, f, i - 1);
      ApplyKeepsInv(ws[i - 1], steps[i - 1], start);
    }
  }

  // From the record as the module creates it, however many loops share it and race to start it, with whatever
  // failures and stale answers: as long as every starting ledger after the first is safe, no event from the
  // first starting ledger on is skipped, and those events are first delivered in ledger order.
  lemma NoLossInOrder(ws: seq<World>, steps: seq<Step>, f: nat, i: nat)
    requires Trace(ws, steps) && Unstarted(ws[0]) && GivesFirst(steps, f) && f < i < |ws|
    requires forall k :: f < k < i ==> SafeStep(ws[k], steps[k], steps[f].sequence)
    ensures var s0 := FirstAt(ws[f].log, steps[f].sequence);
            var next := Next(ws[i].delivered, s0);
            && InOrder(ws[i].delivered, s0) && s0 <= next
            && (forall k :: k in ws[i].delivered ==> k < next)
            && (forall k :: s0 <= k < next ==> k in ws[i].delivered)
  {
    DeliveredFromStart(ws, steps, f, i);
    DeliveredIsAnInterval(ws[i].delivered, FirstAt(ws[f].log, steps[f].sequence));
  }

  // ---------- what a ledger shuts out ----------

  ghost predicate PhaseAbove(w: World, phase: Phase, low: nat) {
    match phase
    case Idle => true
    case FetchingLatest => true
    case Waiting(point) => FirstAt(w.log, low) <= FirstEvent(w.log, point)
      && (point.FromLedger? ==> point.start <= w.latest)
    case Answered(_, r) => FirstAt(w.log, low) <= r.from && low <= r.latestLedger <= w.latest
  }

  // Nothing the loops are about to deliver is of a ledger before low.
  ghost predicate Above(w: World, low: nat) {
    && LedgerOk(w) && low <= w.latest && !Uninitialised(w.paging)
    && low <= w.paging.lastLedgerStart.value <= w.latest
    && PhaseAbove(w, Waiting(RequestPoint(w.paging)), low)
    && forall p :: p in w.loops ==> PhaseAbove(w, w.loops[p], low)
  }

  lemma CloseKeepsAbove(w: World, n: nat, low: nat)
    requires Above(w, low)
    ensures var w' := Apply(w, Close(n)); Above(w', low) && FirstAt(w'.log, low) == FirstAt(w.log, low)
  {
    CloseKeepsLedger(w, n);
    forall p | p in w.loops
      ensures PhaseAbove(Apply(w, Close(n)), w.loops[p], low)
    {
      assert PhaseAbove(w, w.loops[p], low);
    }
  }

  lemma {:induction false} UptoFrom(a: nat, b: nat)
    ensures forall k :: k in Upto(a, b) <==> a <= k < b
    decreases b - a
  {
    if a < b {
      UptoFrom(a + 1, b);
    }
  }

  lemma PhaseKeepsAbove(w: World, p: LoopId, phase: Phase, low: nat)
    requires Above(w, low) && PhaseAbove(w, phase, low)
    ensures Above(w.(loops := w.loops[p := phase]), low)
  {
    var w' := w.(loops := w.loops[p := phase]);
    forall q | q in w'.loops
      ensures PhaseAbove(w', w'.loops[q], low)
    {
      assert q != p ==> PhaseAbove(w, w.loops[q], low);
      assert PhaseAbove(w', w'.loops[q], low) == PhaseAbove(w, w'.loops[q], low);
    }
  }

  lemma HandleKeepsAbove(w: World, p: LoopId, low: nat)
    requires Above(w, low) && PhaseOf(w, p).Answered?
    ensures Above(Apply(w, Handling(p)), low)
    ensures forall k :: k in Apply(w, Handling(p)).delivered ==> k in w.delivered || k >= FirstAt(w.log, low)
  {
    var r := PhaseOf(w, p).response;
    assert PhaseAbove(w, w.loops[p], low);
    UptoFrom(r.from, r.to);
    FirstAtGrows(w.log, low, r.latestLedger);
    forall q | q in w.loops && q != p
      ensures PhaseAbove(Apply(w, Handling(p)), w.loops[q], low)
    {
      assert PhaseAbove(w, w.loops[q], low);
    }
  }

  lemma ApplyKeepsAbove(w: World, s: Step, low: nat)
    requires Above(w, low) && Enabled(w, s) && (s.Latest? ==> s.sequence >= low)
    ensures Above(Apply(w, s), low) && FirstAt(Apply(w, s).log, low) == FirstAt(w.log, low)
    ensures forall k :: k in Apply(w, s).delivered ==> k in w.delivered || k >= FirstAt(w.log, low)
  {
    match s
    case Close(n) => CloseKeepsAbove(w, n, low);
    case Handling(p) => HandleKeepsAbove(w, p, low);
    case Begin(p) => PhaseKeepsAbove(w, p, Waiting(RequestPoint(w.paging)), low);
    case Failing(p) => PhaseKeepsAbove(w, p, Idle, low);
    case Answering(p) =>
      var point := PhaseOf(w, p).point;
      assert PhaseAbove(w, w.loops[p], low);
      PhaseKeepsAbove(w, p, Answered(point, Answer(w.log, w.latest, point)), low);
    case Latest(p, sequence) => LatestKeepsAbove(w, p, sequence, low);
  }

  lemma LatestKeepsAbove(w: World, p: LoopId, sequence: nat, low: nat)
    requires Above(w, low) && Enabled(w, Latest(p, sequence)) && sequence >= low
    ensures Above(Apply(w, Latest(p, sequence)), low)
  {
    var paging := w.paging.(lastLedgerStart := Some(sequence));
    var given := w.(paging := paging);
    FirstAtGrows(w.log, low, sequence);
    forall q | q in w.loops
      ensures PhaseAbove(given, w.loops[q], low)
    {
      assert PhaseAbove(w, w.loops[q], low);
    }
    PhaseKeepsAbove(given, p, Waiting(RequestPoint(paging)), low);
  }

  lemma FirstIsAbove(w: World, p: LoopId, sequence: nat)
    requires Unstarted(w) && Enabled(w, Latest(p, sequence))
    ensures var w' := Apply(w, Latest(p, sequence)); Above(w', sequence) && w'.log == w.log && w'.delivered == []
  {
  }

  // Where no starting ledger goes back behind the first one, nothing before it is ever delivered.
  lemma {:induction false} NothingEarlier(ws: seq<World>, steps: seq<Step>, f: nat, i: nat)
    requires Trace(ws, steps) && Unstarted(ws[0]) && GivesFirst(steps, f) && f < i < |ws|
    requires forall k :: f < k < i && steps[k].Latest? ==> steps[k].sequence >= steps[f].sequence
    ensures Above(ws[i], steps[f].sequence)
    ensures FirstAt(ws[i].log, steps[f].sequence) == FirstAt(ws[f].log, steps[f].sequence)
    ensures forall k :: k in ws[i].delivered ==> k >= FirstAt(ws[f].log, steps[f].sequence)
  {
    var start := steps[f].sequence;
    if i == f + 1 {
      NothingBeforeFirst(ws, steps, f, f);
      FirstIsAbove(ws[f], steps[f].loop, start);
    } else {
      NothingEarlier(ws, steps, f, i - 1);
      ApplyKeepsAbove(ws[i - 1], steps[i - 1], start);
    }
  }

  // ---------- one loop alone: what is delivered twice ----------

  predicate OnlyLoop(s: Step, p: LoopId) {
    s.Close? || s.loop == p
  }

  // The ledger a request may fetch delivered events of.
  function PointLedger(w: World, point: Point): nat
    requires point.AfterEvent? ==> point.cursor < |w.log|
  {
    match point
    case FromLedger(start) => start
    case AfterEvent(cursor) => w.log[cursor]
  }

  ghost predicate OverlapIn(w: World, point: Point, start: nat) {
    && (point.AfterEvent? ==> point.cursor < |w.log|)
    && forall k :: FirstEvent(w.log, point) <= k < Undelivered(w, start) ==>
      k < |w.log| && w.log[k] == PointLedger(w, point)
  }

  ghost predicate SoloPhase(w: World, phase: Phase, start: nat)
    requires !Uninitialised(w.paging)
  {
    match phase
    case Idle => true
    case FetchingLatest => false
    case Waiting(point) => point == RequestPoint(w.paging)
    case Answered(point, r) =>
      && point == RequestPoint(w.paging) && r.from == FirstEvent(w.log, point)
      && (r.from == r.to ==> r.from == Undelivered(w, start))
      && forall k :: 0 <= k < Undelivered(w, start) ==> k < |w.log| && w.log[k] <= r.latestLedger
  }

  ghost predicate Solo(w: World, p: LoopId, start: nat) {
    && Inv(w, start) && (forall q :: q in w.loops && q != p ==> w.loops[q].Idle?)
    && OverlapIn(w, RequestPoint(w.paging), start) && SoloPhase(w, PhaseOf(w, p), start)
  }

  lemma SoloClose(w: World, n: nat, p: LoopId, start: nat)
    requires Solo(w, p, start)
    ensures Solo(Apply(w, Close(n)), p, start)
  {
    var w' := Apply(w, Close(n));
    CloseKeepsInv(w, n, start);
    var point := RequestPoint(w.paging);
    if point.FromLedger? {
      FirstAtIsStable(w.log, seq(n, _ => w.latest + 1), point.start);
    }
    assert FirstEvent(w'.log, point) == FirstEvent(w.log, point);
    assert Undelivered(w', start) == Undelivered(w, start);
  }

  lemma HandledProgress(w: World, p: LoopId, start: nat)
    requires Inv(w, start) && PhaseOf(w, p).Answered?
    ensures var r := PhaseOf(w, p).response;
            Undelivered(Apply(w, Handling(p)), start)
            == (if r.from < r.to && Undelivered(w, start) < r.to then r.to else Undelivered(w, start))
  {
    assert PhaseOk(w, w.loops[p], start);
    var r := PhaseOf(w, p).response;
    DeliverPage(w.delivered, FirstAt(w.log, start), r.from, r.to);
  }

  lemma HandledOverlap(w: World, p: LoopId, start: nat)
    requires Solo(w, p, start) && PhaseOf(w, p).Answered?
    ensures var w' := Apply(w, Handling(p)); OverlapIn(w', RequestPoint(w'.paging), start)
  {
    var r := PhaseOf(w, p).response;
    var w' := Apply(w, Handling(p));
    var next := Undelivered(w, start);
    assert PhaseOk(w, w.loops[p], start);
    HandledProgress(w, p, start);
    if r.from < r.to {
      var point := RequestPoint(w.paging);
      forall k | r.to <= k < Undelivered(w', start)
        ensures k < |w.log| && w.log[k] == w.log[r.to - 1]
      {
        assert w.log[k] == PointLedger(w, point);
        assert w.log[r.to - 1] == PointLedger(w, point);
      }
    } else {
      FirstAtSplits(w.log, r.latestLedger);
    }
  }

  lemma SoloHandle(w: World, p: LoopId, start: nat)
    requires Solo(w, p, start) && PhaseOf(w, p).Answered?
    ensures Solo(Apply(w, Handling(p)), p, start)
  {
    assert PhaseOk(w, w.loops[p], start);
    HandleKeepsInv(w, PhaseOf(w, p).response, p, start);
    HandledOverlap(w, p, start);
  }

  lemma SoloAnswer(w: World, p: LoopId, start: nat)
    requires Solo(w, p, start) && PhaseOf(w, p).Waiting?
    ensures Solo(Apply(w, Answering(p)), p, start)
  {
    var point := PhaseOf(w, p).point;
    var w' := Apply(w, Answering(p));
    ApplyKeepsInv(w, Answering(p), start);
    AnsweredPhase(w, point, start);
    assert OverlapIn(w', RequestPoint(w'.paging), start);
    assert forall q :: q in w'.loops && q != p ==> w'.loops[q] == w.loops[q];
  }

  lemma AnsweredPhase(w: World, point: Point, start: nat)
    requires Inv(w, start) && point == RequestPoint(w.paging)
    ensures SoloPhase(w, Answered(point, Answer(w.log, w.latest, point)), start)
  {
    assert PointOk(w, point, start);
  }

  lemma SoloIdle(w: World, s: Step, p: LoopId, start: nat)
    requires Solo(w, p, start) && Enabled(w, s) && OnlyLoop(s, p) && (s.Begin? || s.Failing?)
    ensures Solo(Apply(w, s), p, start)
  {
    ApplyKeepsInv(w, s, start);
    assert Apply(w, s).paging == w.paging && Undelivered(Apply(w, s), start) == Undelivered(w, start);
  }

  lemma SoloApply(w: World, s: Step, p: LoopId, start: nat)
    requires Solo(w, p, start) && Enabled(w, s) && OnlyLoop(s, p)
    ensures Solo(Apply(w, s), p, start)
  {
    match s
    case Close(n) => SoloClose(w, n, p, start);
    case Handling(_) => SoloHandle(w, p, start);
    case Answering(_) => SoloAnswer(w, p, start);
    case Begin(_) => SoloIdle(w, s, p, start);
    case Failing(_) => SoloIdle(w, s, p, start);
    case Latest(_, _) => assert false;
  }

  ghost predicate SoloRun(ws: seq<World>, steps: seq<Step>, p: LoopId, start: nat) {
    && Trace(ws, steps) && Started(ws[0], start) && (forall q :: q in ws[0].loops && q != p ==> ws[0].loops[q].Idle?)
    && forall i :: 0 <= i < |steps| ==> OnlyLoop(steps[i], p)
  }

  lemma SoloBegins(w: World, p: LoopId, start: nat)
    requires Started(w, start) && forall q :: q in w.loops && q != p ==> w.loops[q].Idle?
    ensures Solo(w, p, start)
  {
  }

  lemma SoloNext(ws: seq<World>, steps: seq<Step>, p: LoopId, start: nat, i: nat)
    requires SoloRun(ws, steps, p, start) && i < |steps| && Solo(ws[i], p, start)
    ensures Solo(ws[i + 1], p, start)
  {
    SoloApply(ws[i], steps[i], p, start);
  }

  lemma {:induction false} SoloReachable(ws: seq<World>, steps: seq<Step>, p: LoopId, start: nat, i: nat)
    requires SoloRun(ws, steps, p, start) && i < |ws|
    ensures Solo(ws[i], p, start)
  {
    if i == 0 {
      SoloBegins(ws[0], p, start);
    } else {
      SoloReachable(ws, steps, p, start, i - 1);
      SoloNext(ws, steps, p, start, i - 1);
    }
  }

  // The ledger of the delivered events the loop is about to fetch again, if there are any.
  function BehindIn(w: World, start: nat): Option<nat> {
    if Uninitialised(w.paging) then None
    else
      var point := RequestPoint(w.paging);
      if FirstEvent(w.log, point) >= Undelivered(w, start) || (point.AfterEvent? && point.cursor >= |w.log|) then None
      else Some(PointLedger(w, point))
  }

  ghost predicate EmptyPage(w: World, s: Step) {
    s.Handling? && PhaseOf(w, s.loop).Answered? && PhaseOf(w, s.loop).response.from == PhaseOf(w, s.loop).response.to
  }

  // Falling behind is inherited, or comes from an empty page and its latest ledger.
  ghost predicate FellAt(w: World, s: Step, start: nat, ledger: nat) {
    BehindIn(w, start) == Some(ledger) || (EmptyPage(w, s) && PhaseOf(w, s.loop).response.latestLedger == ledger)
  }

  lemma StepFalls(w: World, s: Step, p: LoopId, start: nat)
    requires Solo(w, p, start) && Enabled(w, s) && OnlyLoop(s, p) && BehindIn(Apply(w, s), start).Some?
    ensures FellAt(w, s, start, BehindIn(Apply(w, s), start).value)
  {
    match s
    case Handling(_) =>
      assert PhaseOk(w, w.loops[p], start);
      HandledProgress(w, p, start);
    case Close(n) =>
      CloseKeepsInv(w, n, start);
      if RequestPoint(w.paging).FromLedger? {
        FirstAtIsStable(w.log, seq(n, _ => w.latest + 1), RequestPoint(w.paging).start);
      }
    case Latest(_, _) => assert false;
    case _ =>
  }

  lemma StartsAhead(w: World, start: nat)
    requires Started(w, start)
    ensures BehindIn(w, start).None?
  {
  }

  lemma FellBefore(ws: seq<World>, steps: seq<Step>, p: LoopId, start: nat, i: nat)
    requires SoloRun(ws, steps, p, start) && i < |ws| && BehindIn(ws[i], start).Some?
    ensures i > 0 && FellAt(ws[i - 1], steps[i - 1], start, BehindIn(ws[i], start).value)
  {
    StartsAhead(ws[0], start);
    SoloReachable(ws, steps, p, start, i - 1);
    StepFalls(ws[i - 1], steps[i - 1], p, start);
  }

  // A loop that is about to fetch delivered events fell back on an earlier empty page, to its latest ledger.
  lemma {:induction false} BehindAfterEmptyPage(ws: seq<World>, steps: seq<Step>, p: LoopId, start: nat, i: nat)
        returns (j: nat)
    requires SoloRun(ws, steps, p, start) && i < |ws| && BehindIn(ws[i], start).Some?
    ensures j < i && EmptyPage(ws[j], steps[j])
    ensures BehindIn(ws[i], start) == Some(PhaseOf(ws[j], steps[j].loop).response.latestLedger)
  {
    FellBefore(ws, steps, p, start, i);
    if EmptyPage(ws[i - 1], steps[i - 1])
       && PhaseOf(ws[i - 1], steps[i - 1].loop).response.latestLedger == BehindIn(ws[i], start).value {
      j := i - 1;
    } else {
      j := BehindAfterEmptyPage(ws, steps, p, start, i - 1);
    }
  }

  lemma RefetchIsBehind(w: World, p: LoopId, start: nat, k: nat)
    requires Solo(w, p, start) && PhaseOf(w, p).Answered?
    requires var r := PhaseOf(w, p).response; r.from <= k < r.to && k in w.delivered
    ensures k < |w.log| && BehindIn(w, start) == Some(w.log[k])
  {
    assert PhaseOk(w, w.loops[p], start);
    DeliveredIsAnInterval(w.delivered, FirstAt(w.log, start));
  }

  // With one loop, an event is delivered again only if it is of the ledger that was the latest when an
  // earlier page came back empty: the ledger the loop then restarted on.
  lemma RedeliveryIsConfined(ws: seq<World>, steps: seq<Step>, p: LoopId, start: nat, i: nat, k: nat) returns (j: nat)
    requires SoloRun(ws, steps, p, start) && i < |steps| && steps[i].Handling?
    requires var r := PhaseOf(ws[i], p).response; r.from <= k < r.to && k in ws[i].delivered
    ensures j < i && EmptyPage(ws[j], steps[j])
    ensures k < |ws[i].log| && ws[i].log[k] == PhaseOf(ws[j], steps[j].loop).response.latestLedger
  {
    SoloReachable(ws, steps, p, start, i);
    RefetchIsBehind(ws[i], p, start, k);
    j := BehindAfterEmptyPage(ws, steps, p, start, i);
  }

  // After an empty page the loop re-delivers exactly when the last event it delivered is of that page's
  // latest ledger, so delivery is not exactly once.
  lemma RestartRedelivers(w: World, p: LoopId, start: nat)
    requires Solo(w, p, start) && EmptyPage(w, Handling(p))
    ensures BehindIn(Apply(w, Handling(p)), start).Some? <==>
            var next := Undelivered(w, start);
            next > FirstAt(w.log, start) && w.log[next - 1] == PhaseOf(w, p).response.latestLedger
  {
    HandledProgress(w, p, start);
    assert PhaseOk(w, w.loops[p], start);
    FirstAtSplits(w.log, PhaseOf(w, p).response.latestLedger);
  }

  // ---------- progress ----------

  function Poll(w: World, p: LoopId): World
    requires PhaseOf(w, p).Idle? && !Uninitialised(w.paging)
  {
    Apply(Apply(Apply(w, Begin(p)), Answering(p)), Handling(p))
  }

  lemma PollProgress(w: World, p: LoopId, start: nat)
    requires Inv(w, start) && PhaseOf(w, p).Idle?
    ensures var w' := Poll(w, p);
            var from := FirstEvent(w.log, RequestPoint(w.paging));
            && Inv(w', start) && PhaseOf(w', p).Idle? && w'.log == w.log
            && Undelivered(w', start) >= Undelivered(w, start)
            && (from < |w.log| ==> FirstEvent(w.log, RequestPoint(w'.paging))
                                     == if from + PAGE_LIMIT < |w.log| then from + PAGE_LIMIT else |w.log|)
  {
    var w1 := Apply(w, Begin(p));
    var w2 := Apply(w1, Answering(p));
    ApplyKeepsInv(w, Begin(p), start);
    ApplyKeepsInv(w1, Answering(p), start);
    ApplyKeepsInv(w2, Handling(p), start);
    HandledProgress(w2, p, start);
  }

  function Polls(w: World, p: LoopId, start: nat, n: nat): World
    requires Inv(w, start) && PhaseOf(w, p).Idle?
    decreases n
  {
    if n == 0 then w
    else
      PollProgress(w, p, start);
      Polls(Poll(w, p), p, start, n - 1)
  }

  lemma {:induction false} CaughtUpStays(w: World, p: LoopId, start: nat, n: nat)
    requires Inv(w, start) && PhaseOf(w, p).Idle? && Undelivered(w, start) == |w.log|
    ensures Undelivered(Polls(w, p, start, n), start) == |w.log|
    decreases n
  {
    if n > 0 {
      PollProgress(w, p, start);
      CaughtUpStays(Poll(w, p), p, start, n - 1);
    }
  }

  // While no ledger closes, successful polls of a page each deliver everything: with PAGE_LIMIT events a
  // poll, n polls reach the end of a log that is at most n pages ahead.
  lemma {:induction false} CatchesUp(w: World, p: LoopId, start: nat, n: nat)
    requires Inv(w, start) && PhaseOf(w, p).Idle?
    requires |w.log| <= FirstEvent(w.log, RequestPoint(w.paging)) + PAGE_LIMIT * n
    ensures Undelivered(Polls(w, p, start, n), start) == |w.log|
    decreases n
  {
    if n == 0 || Undelivered(w, start) == |w.log| {
      assert FirstEvent(w.log, RequestPoint(w.paging)) <= Undelivered(w, start) <= |w.log|;
      CaughtUpStays(w, p, start, n);
    } else {
      PollProgress(w, p, start);
      CatchesUp(Poll(w, p), p, start, n - 1);
    }
  }

  // ---------- the one way to lose events ----------

  // Some run leads from w to w'.
  ghost predicate Leads(w: World, w': World) {
    exists ws: seq<World>, steps: seq<Step> :: Trace(ws, steps) && ws[0] == w && ws[|steps|] == w'
  }

  lemma LeadsOn(w: World, w': World, s: Step)
    requires Leads(w, w') && Enabled(w', s)
    ensures Leads(w, Apply(w', s))
  {
    var ws: seq<World>, steps: seq<Step> :| Trace(ws, steps) && ws[0] == w && ws[|steps|] == w';
    assert Trace(ws + [Apply(w', s)], steps + [s]);
  }

  // No run from w ever delivers event k.
  ghost predicate NeverDelivered(w: World, k: nat) {
    forall w' :: Leads(w, w') ==> k !in w'.delivered
  }

  // No loop is fetching a starting ledger; none ever will.
  ghost predicate Settled(w: World) {
    forall p :: p in w.loops ==> !w.loops[p].FetchingLatest?
  }

  lemma {:induction false} StaysAbove(ws: seq<World>, steps: seq<Step>, low: nat, i: nat)
    requires Trace(ws, steps) && Above(ws[0], low) && Settled(ws[0]) && i < |ws|
    ensures Above(ws[i], low) && Settled(ws[i]) && FirstAt(ws[i].log, low) == FirstAt(ws[0].log, low)
    ensures forall k :: k in ws[i].delivered ==> k in ws[0].delivered || k >= FirstAt(ws[0].log, low)
  {
    if i > 0 {
      StaysAbove(ws, steps, low, i - 1);
      assert !steps[i - 1].Latest?;
      ApplyKeepsAbove(ws[i - 1], steps[i - 1], low);
    }
  }

  lemma ShutOut(w: World, low: nat, k: nat)
    requires Above(w, low) && Settled(w) && k < FirstAt(w.log, low) && k !in w.delivered
    ensures NeverDelivered(w, k)
  {
    forall w' | Leads(w, w')
      ensures k !in w'.delivered
    {
      var ws: seq<World>, steps: seq<Step> :| Trace(ws, steps) && ws[0] == w && ws[|steps|] == w';
      StaysAbove(ws, steps, low, |steps|);
    }
  }

  function Busy(w: World): set<LoopId> {
    set q | q in w.loops && !w.loops[q].Idle?
  }

  // Every request under way can fail.
  lemma {:induction false} FailAll(w0: World, w: World) returns (w': World)
    requires Leads(w0, w)
    ensures Leads(w0, w') && w' == w.(loops := w'.loops) && forall q :: q in w'.loops ==> w'.loops[q].Idle?
    decreases |Busy(w)|
  {
    w' := w;
    if Busy(w) != {} {
      var q :| q in Busy(w);
      LeadsOn(w0, w, Failing(q));
      var next := Apply(w, Failing(q));
      assert Busy(next) == Busy(w) - {q};
      w' := FailAll(w0, next);
    } else {
      assert forall q :: q in w.loops ==> q !in Busy(w);
    }
  }

  // An unsafe starting ledger loses events: it can happen that the first event owed, of a ledger at or after the
  // first starting one, is then never delivered.
  lemma UnsafeStartLoses(w: World, p: LoopId, sequence: nat, start: nat) returns (w': World)
    requires Inv(w, start) && Enabled(w, Latest(p, sequence)) && !SafeLatest(w, sequence, start)
    ensures Leads(Apply(w, Latest(p, sequence)), w')
    ensures var lost := Undelivered(w, start);
            && lost < |w'.log| && w'.log[lost] >= start && lost !in w'.delivered && NeverDelivered(w', lost)
  {
    var given := Apply(w, Latest(p, sequence));
    var lost := Undelivered(w, start);
    assert Trace([given], []);
    w' := FailAll(given, given);
    DeliveredIsAnInterval(w.delivered, FirstAt(w.log, start));
    FirstAtSplits(w.log, start);
    ShutOut(w', sequence, lost);
  }

  // Two loops that both found no starting ledger race to set one: the record starts at ledger 100, whose
  // event a request is under way for, then at 101; when that request fails the event is never delivered.
  lemma RacingStartsLose() returns (w: World, w': World)
    ensures var w0 := World([100], 100, Paging(None, None), map[], []); Unstarted(w0) && Leads(w0, w) && Leads(w, w')
    ensures w.paging == Paging(Some(100), None) && 1 in w.loops && w.loops[1] == Waiting(FromLedger(100))
    ensures w.log == w'.log == [100] && w'.delivered == [] && NeverDelivered(w', 0)
  {
    var w0 := World([100], 100, Paging(None, None), map[], []);
    assert Trace([w0], []);
    LeadsOn(w0, w0, Begin(1));
    var w1 := w0.(loops := map[1 := FetchingLatest]);
    LeadsOn(w0, w1, Begin(2));
    var w2 := w0.(loops := map[1 := FetchingLatest, 2 := FetchingLatest]);
    LeadsOn(w0, w2, Latest(1, 100));
    w := w2.(paging := Paging(Some(100), None), loops := map[1 := Waiting(FromLedger(100)), 2 := FetchingLatest]);
    w' := RaceEnds(w);
  }

  lemma NeverAgain(w: World)
    requires w == World([100], 101, Paging(Some(101), None), map[1 := Idle, 2 := Waiting(FromLedger(101))], [])
    ensures NeverDelivered(w, 0)
  {
    FirstAtIsUnique(w.log, 101, 1);
    ShutOut(w, 101, 0);
  }

  lemma RaceEnds(w: World) returns (w': World)
    requires w == World([100], 100, Paging(Some(100), None), map[1 := Waiting(FromLedger(100)), 2 := FetchingLatest],
              [])
    ensures Leads(w, w') && w'.log == [100] && w'.delivered == [] && NeverDelivered(w', 0)
  {
    assert Trace([w], []);
    LeadsOn(w, w, Close(0));
    var w1 := w.(latest := 101);
    assert w.log + seq(0, _ => w.latest + 1) == w.log;
    LeadsOn(w, w1, Latest(2, 101));
    var w2 := w1.(paging := Paging(Some(101), None),
      loops := map[1 := Waiting(FromLedger(100)), 2 := Waiting(FromLedger(101))]);
    LeadsOn(w, w2, Failing(1));
    w' := w2.(loops := map[1 := Idle, 2 := Waiting(FromLedger(101))]);
    NeverAgain(w');
  }

  // ---------- one loop delivers twice ----------

  // Some run of loop p alone leads from w to w'.
  ghost predicate LeadsAlone(w: World, w': World, p: LoopId) {
    exists ws: seq<World>, steps: seq<Step> ::
      Trace(ws, steps) && ws[0] == w && ws[|steps|] == w' && forall s :: s in steps ==> OnlyLoop(s, p)
  }

  lemma AloneOn(w: World, w': World, p: LoopId, s: Step)
    requires LeadsAlone(w, w', p) && Enabled(w', s) && OnlyLoop(s, p)
    ensures LeadsAlone(w, Apply(w', s), p)
  {
    var ws: seq<World>, steps: seq<Step> :|
      Trace(ws, steps) && ws[0] == w && ws[|steps|] == w' && forall s :: s in steps ==> OnlyLoop(s, p);
    assert Trace(ws + [Apply(w', s)], steps + [s]);
  }

  function Resting(paging: Paging, delivered: seq<nat>): World {
    World([5], 5, paging, map[1 := Idle], delivered)
  }

  // A poll of loop 1 over the log of one event at ledger 5.
  lemma PollsAlone(w0: World, paging: Paging, delivered: seq<nat>)
    requires !Uninitialised(paging) && LeadsAlone(w0, Resting(paging, delivered), 1)
    ensures var r := Answer([5], 5, RequestPoint(paging));
            LeadsAlone(w0, Resting(Advance(paging, r), delivered + Upto(r.from, r.to)), 1)
  {
    var w := Resting(paging, delivered);
    var point := RequestPoint(paging);
    AloneOn(w0, w, 1, Begin(1));
    var w1 := w.(loops := map[1 := Waiting(point)]);
    AloneOn(w0, w1, 1, Answering(1));
    var w2 := w.(loops := map[1 := Answered(point, Answer([5], 5, point))]);
    AloneOn(w0, w2, 1, Handling(1));
  }

  // The first poll, from the record as the module creates it.
  lemma StartsAlone(w0: World)
    requires w0 == World([5], 5, Paging(None, None), map[], [])
    ensures LeadsAlone(w0, Resting(Paging(Some(5), Some(0)), [0]), 1)
  {
    var w := AsksAlone(w0);
    LaterAnswers();
    AloneOn(w0, w, 1, Answering(1));
    var answered := w.(loops := map[1 := Answered(FromLedger(5), Response(0, 1, 5))]);
    assert Apply(w, Answering(1)) == answered;
    HandlesAlone(w0, answered);
  }

  lemma HandlesAlone(w0: World, w: World)
    requires w == World([5], 5, Paging(Some(5), None), map[1 := Answered(FromLedger(5), Response(0, 1, 5))], [])
    requires LeadsAlone(w0, w, 1)
    ensures LeadsAlone(w0, Resting(Paging(Some(5), Some(0)), [0]), 1)
  {
    AloneOn(w0, w, 1, Handling(1));
    assert Upto(0, 1) == [0] && [] + [0] == [0];
  }

  lemma AsksAlone(w0: World) returns (w: World)
    requires w0 == World([5], 5, Paging(None, None), map[], [])
    ensures w == w0.(paging := Paging(Some(5), None), loops := map[1 := Waiting(FromLedger(5))])
    ensures LeadsAlone(w0, w, 1)
  {
    assert Trace([w0], []) && LeadsAlone(w0, w0, 1);
    AloneOn(w0, w0, 1, Begin(1));
    var fetching := w0.(loops := map[1 := FetchingLatest]);
    AloneOn(w0, fetching, 1, Latest(1, 5));
    w := w0.(paging := Paging(Some(5), None), loops := map[1 := Waiting(FromLedger(5))]);
  }

  lemma LaterAnswers()
    ensures Answer([5], 5, AfterEvent(0)) == Response(1, 1, 5) && Upto(1, 1) == []
    ensures Answer([5], 5, FromLedger(5)) == Response(0, 1, 5) && Upto(0, 1) == [0]
  {
    FirstAtIsUnique([5], 5, 0);
  }

  // A lone loop over a log of one event, at ledger 5, delivers it, then gets an empty page whose latest ledger is 5,
  // and then delivers it again.
  lemma LoneLoopRepeats() returns (w: World)
    ensures var w0 := World([5], 5, Paging(None, None), map[], []); Unstarted(w0) && LeadsAlone(w0, w, 1)
    ensures w.delivered == [0, 0]
  {
    var w0 := World([5], 5, Paging(None, None), map[], []);
    StartsAlone(w0);
    LaterAnswers();
    PollsAlone(w0, Paging(Some(5), Some(0)), [0]);
    assert [0] + [] == [0];
    PollsAlone(w0, Paging(Some(5), None), [0]);
    w := Resting(Paging(Some(5), Some(0)), [0] + [0]);
  }

  // ---------- two loops deliver twice ----------

  // Any two idle loops can fetch the same page and both deliver it.
  lemma TwoLoopsRepeat(w: World, p: LoopId, q: LoopId, start: nat) returns (w': World)
    requires Inv(w, start) && p != q && PhaseOf(w, p).Idle? && PhaseOf(w, q).Idle?
    ensures var r := Answer(w.log, w.latest, RequestPoint(w.paging));
            Leads(w, w') && w'.delivered == w.delivered + Upto(r.from, r.to) + Upto(r.from, r.to)
  {
    var point := RequestPoint(w.paging);
    var r := Answer(w.log, w.latest, point);
    assert Trace([w], []);
    LeadsOn(w, w, Begin(p));
    var w1 := w.(loops := w.loops[p := Waiting(point)]);
    LeadsOn(w, w1, Begin(q));
    var w2 := w.(loops := w.loops[p := Waiting(point)][q := Waiting(point)]);
    LeadsOn(w, w2, Answering(p));
    var w3 := w.(loops := w2.loops[p := Answered(point, r)]);
    LeadsOn(w, w3, Answering(q));
    w' := BothHandled(w, w3.(loops := w3.loops[q := Answered(point, r)]), p, q, point, r);
  }

  lemma BothHandled(w0: World, w: World, p: LoopId, q: LoopId, point: Point, r: Response) returns (w': World)
    requires Leads(w0, w) && p != q && PhaseOf(w, p) == Answered(point, r) && PhaseOf(w, q) == Answered(point, r)
    ensures Leads(w0, w') && w'.delivered == w.delivered + Upto(r.from, r.to) + Upto(r.from, r.to)
  {
    LeadsOn(w0, w, Handling(p));
    var w1 := Apply(w, Handling(p));
    LeadsOn(w0, w1, Handling(q));
    w' := Apply(w1, Handling(q));
  }
}
