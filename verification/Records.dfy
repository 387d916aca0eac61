/** The journal's attempt records and the history they form for one event. `I` is everything that
    identifies an attempt besides its event and number; `P` is what a completion adds. */
module Records {
  /** A completed record's next safe action. */
  datatype NextAction = Advance | Reconsider | Retry | Stop

  datatype Record<I, P> =
    | InFlight(event: string, attempt: int, identity: I)
    | Completed(event: string, attempt: int, identity: I, outcome: P, next: NextAction)

  /** `_validate_retry_transition`. */
  predicate MayFollow<I(==), P>(prior: Record<I, P>, current: Record<I, P>)
  {
    && prior.Completed? && prior.next == Retry
    && current.event == prior.event && current.identity == prior.identity
  }

  /** What `_records` accepts for one event: attempts 1, 2, ... in order, each but the last
      completed with `retry`, all under one identity. */
  predicate ValidHistory<I(==), P>(event: string, history: seq<Record<I, P>>)
  {
    && (forall i | 0 <= i < |history| :: history[i].event == event && history[i].attempt == i + 1)
    && (forall i | 0 <= i < |history| - 1 :: MayFollow(history[i], history[i + 1]))
  }

  /** The checks of `write_in_flight` against the event's history. */
  predicate MayStart<I(==), P>(history: seq<Record<I, P>>, record: Record<I, P>)
  {
    && record.InFlight? && record.attempt == |history| + 1
    && (history != [] ==> MayFollow(history[|history| - 1], record))
  }

  /** The checks of `replace_completed` against the event's history. */
  predicate MayComplete<I(==), P>(history: seq<Record<I, P>>, record: Record<I, P>)
  {
    && record.Completed? && 0 < record.attempt <= |history|
    && var existing := history[record.attempt - 1];
       existing.InFlight? && existing.event == record.event && existing.identity == record.identity
  }

  /** An in-flight record can only be the last one. */
  lemma InFlightIsLast<I, P>(event: string, history: seq<Record<I, P>>, i: nat)
    requires ValidHistory(event, history) && i < |history| && history[i].InFlight?
    ensures i == |history| - 1
  {
    assert i < |history| - 1 ==> MayFollow(history[i], history[i + 1]);
  }

  lemma StartKeepsValid<I, P>(event: string, history: seq<Record<I, P>>, record: Record<I, P>)
    requires ValidHistory(event, history) && record.event == event && MayStart(history, record)
    ensures ValidHistory(event, history + [record])
  {
  }

  lemma CompleteKeepsValid<I, P>(event: string, history: seq<Record<I, P>>, record: Record<I, P>)
    requires ValidHistory(event, history) && record.event == event && MayComplete(history, record)
    ensures record.attempt == |history|
    ensures ValidHistory(event, history[record.attempt - 1 := record])
  {
    InFlightIsLast(event, history, record.attempt - 1);
  }

  /** All attempts of one event share one identity. */
  lemma {:induction false} OneIdentity<I, P>(event: string, history: seq<Record<I, P>>, i: nat, j: nat)
    requires ValidHistory(event, history) && i <= j < |history|
    ensures history[i].identity == history[j].identity
    decreases j
  {
    if i < j {
      OneIdentity(event, history, i, j - 1);
      assert MayFollow(history[j - 1], history[j]);
    }
  }
}
