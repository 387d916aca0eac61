/** The verifier's own reading of the journal: the id table of a completed replay. */
module Runner {
  import opened Prelude
  import opened Scenarios
  import opened Records
  import opened Actions
  import opened Recovery
  import opened ReplayMachine
  import opened ReplaySafety
  import opened ReplayTheorems
  import opened ReplayEngines

  /** Every event is recorded as done, under this scenario. */
  ghost predicate Replayed(scenario: Scenario, journal: Journal)
  {
    && Readable(journal)
    && forall event | event in scenario.events ::
         Advances(History(journal, event)) && SameDigest(scenario, History(journal, event))
  }

  /** `resolve_ids`: the union of what the completed records carry, in event order. */
  method ResolveIds(scenario: Scenario, store: JournalStore) returns (ids: Option<IdTable>)
    ensures ids.Some? <==> Replayed(scenario, store.records)
    ensures ids.Some? ==> ids.value == Table(scenario, store.records, |scenario.events|)
  {
    if !Readable(store.records) {
      return None;
    }
    var resolved: IdTable := map[];
    for i := 0 to |scenario.events|
      invariant resolved == Table(scenario, store.records, i)
      invariant forall j | 0 <= j < i ::
        && Advances(History(store.records, scenario.events[j]))
        && SameDigest(scenario, History(store.records, scenario.events[j]))
    {
      var record := store.Read(scenario.events[i]);
      if record.None? || !record.value.Completed? || record.value.identity.digest != scenario.digest
         || record.value.next != Advance
      {
        assert scenario.events[i] in scenario.events;
        return None;
      }
      resolved := resolved + record.value.outcome;
    }
    return Some(resolved);
  }

  /** After a run that ends without error, the verifier rebuilds the very table the run ended with,
      and it names exactly what the scenario creates. */
  lemma RebuildsTheRunsTable(scenario: Scenario, s: State, moves: seq<Move>)
    requires Replayable(scenario) && ReplayMachine.Declared(scenario) && Initial(scenario, s)
    requires Run(scenario, s, moves).process.Finished? && Readable(Run(scenario, s, moves).journal)
    ensures var r := Run(scenario, s, moves);
      && Replayed(scenario, r.journal)
      && r.process.ids == Table(scenario, r.journal, |scenario.events|)
      && r.process.ids.Keys == CreatedBefore(scenario.events, |scenario.events|)
  {
    hide Initial, Replayable, Run, At, HandOk, Table, ServerOk, LedgerOk, Readable, CreatedBefore, Do;
    var p, made := Reached(scenario, s, moves);
    var r := Run(scenario, s, moves);
    TableKeys(scenario, r.journal, p, p);
    forall event | event in scenario.events
      ensures Advances(History(r.journal, event)) && SameDigest(scenario, History(r.journal, event))
    {
      var i :| 0 <= i < |scenario.events| && scenario.events[i] == event;
      HistoryAt(scenario, r.journal, p, i);
    }
  }
}
