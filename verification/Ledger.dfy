/** An event log: the ledger number of every event, in ledger order. An event is its position. */
module Ledger {
  predicate Sorted(log: seq<nat>) {
    forall i, j :: 0 <= i <= j < |log| ==> log[i] <= log[j]
  }

  // The first event at or after a ledger.
  function FirstAt(log: seq<nat>, start: nat): (i: nat)
    ensures i <= |log|
    ensures i < |log| ==> log[i] >= start
    ensures forall k :: 0 <= k < i ==> log[k] < start
  {
    if log == [] || log[0] >= start then 0 else 1 + FirstAt(log[1..], start)
  }

  lemma FirstAtSplits(log: seq<nat>, start: nat)
    requires Sorted(log)
    ensures forall k :: 0 <= k < |log| ==> (k >= FirstAt(log, start) <==> log[k] >= start)
  {
  }

  // Later events do not move the first event at or after a ledger that is already closed.
  lemma FirstAtIsStable(log: seq<nat>, more: seq<nat>, start: nat)
    requires forall k :: 0 <= k < |more| ==> more[k] >= start
    ensures FirstAt(log + more, start) == FirstAt(log, start)
  {
    FirstAtIsUnique(log + more, start, FirstAt(log, start));
  }

  lemma {:induction false} FirstAtIsUnique(log: seq<nat>, start: nat, i: nat)
    requires i <= |log| && (i < |log| ==> log[i] >= start)
    requires forall k :: 0 <= k < i ==> log[k] < start
    ensures FirstAt(log, start) == i
  {
    if log != [] && log[0] < start {
      FirstAtIsUnique(log[1..], start, i - 1);
    }
  }

  lemma FirstAtGrows(log: seq<nat>, a: nat, b: nat)
    requires a <= b
    ensures FirstAt(log, a) <= FirstAt(log, b)
  {
  }
}
