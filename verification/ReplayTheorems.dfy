/** The promises of replay, over every run of the step system from a server without the scenario's bugs: any mix of
    `replay` and `resume`, with a crash, a lost reply or a misread query possible at every step. */
module ReplayTheorems {
  import opened Scenarios
  import opened Fixtures
  import opened Actions
  import opened Expected
  import opened Simulation
  import opened Recovery
  import opened ReplayMachine
  import opened ReplaySafety

  lemma Reached(scenario: Scenario, s: State, moves: seq<Move>) returns (p: nat, made: IdTable)
    requires Replayable(scenario) && Initial(scenario, s)
    ensures Declared(scenario)
    ensures Inv(scenario, Run(scenario, s, moves), p, made)
  {
    ReplayableDeclares(scenario);
    hide Inv, Initial, Declared, Replayable;
    p, made := RunKeepsInv(scenario, s, moves);
  }

  // ----- Exactly once -----

  /** No create or append event ever commits twice, whatever happens. */
  lemma AtMostOnce(scenario: Scenario, s: State, moves: seq<Move>, i: nat)
    requires Replayable(scenario) && Declared(scenario) && Initial(scenario, s)
    requires i < |scenario.events| && !IsIdempotent(scenario.events[i])
    ensures Commits(Run(scenario, s, moves).sent, scenario.events[i]) <= 1
  {
    hide Initial, Replayable, Run, At, JournalOk, HandOk, ProcessOk;
    var p, made := Reached(scenario, s, moves);
  }

  /** A run that ends without error leaves each of them committed exactly once. */
  lemma ExactlyOnce(scenario: Scenario, s: State, moves: seq<Move>, i: nat)
    requires Replayable(scenario) && Declared(scenario) && Initial(scenario, s)
    requires i < |scenario.events| && !IsIdempotent(scenario.events[i])
    requires Run(scenario, s, moves).process.Finished?
    ensures Commits(Run(scenario, s, moves).sent, scenario.events[i]) == 1
  {
    hide Initial, Replayable, Run, At, JournalOk, HandOk;
    var p, made := Reached(scenario, s, moves);
  }

  /** What the latest record proves about commits: none means none; a `retry` on an append means
      none; `advance` on a create or append means one. */
  lemma RecordsTellCommits(scenario: Scenario, s: State, moves: seq<Move>, i: nat)
    requires Replayable(scenario) && Declared(scenario) && Initial(scenario, s) && i < |scenario.events|
    ensures var r := Run(scenario, s, moves);
      var event := scenario.events[i];
      var history := History(r.journal, event);
      && (history == [] ==> Commits(r.sent, event) == 0)
      && (IsAppend(event) && Retries(history) ==> Commits(r.sent, event) == 0)
      && (!IsIdempotent(event) && Advances(history) ==> Commits(r.sent, event) == 1)
  {
    hide Initial, Replayable, Run, At, ServerOk, HandOk, ProcessOk, HistoryOk, JournalOk, LedgerOk,
        ReplayMachine.History;
    var p, made := Reached(scenario, s, moves);
    RecordTells(scenario, Run(scenario, s, moves), p, i);
  }

  lemma RecordTells(scenario: Scenario, r: State, p: nat, i: nat)
    requires p <= |scenario.events| && i < |scenario.events|
    requires JournalOk(scenario, r.journal, p) && LedgerOk(scenario, r.sent, p)
    requires p < |scenario.events| ==>
      AttemptOk(scenario.events[p], History(r.journal, scenario.events[p]), Commits(r.sent, scenario.events[p]))
    ensures var event := scenario.events[i];
      var history := History(r.journal, event);
      && (history == [] ==> Commits(r.sent, event) == 0)
      && (IsAppend(event) && Retries(history) ==> Commits(r.sent, event) == 0)
      && (!IsIdempotent(event) && Advances(history) ==> Commits(r.sent, event) == 1)
  {
    hide HistoryOk, ReplayMachine.History, Commits;
  }

  // ----- Progress and the id table -----

  /** Completed events are a prefix of the scenario, and of the rest only the next one has any
      record. */
  lemma ProgressIsPrefix(scenario: Scenario, s: State, moves: seq<Move>) returns (p: nat)
    requires Replayable(scenario) && Declared(scenario) && Initial(scenario, s)
    ensures p <= |scenario.events|
    ensures forall i | 0 <= i < |scenario.events| ::
      && (Advances(History(Run(scenario, s, moves).journal, scenario.events[i])) <==> i < p)
      && (i > p ==> History(Run(scenario, s, moves).journal, scenario.events[i]) == [])
  {
    hide Initial, Replayable, Run, At, HandOk, ProcessOk, HistoryOk, ReplayMachine.History;
    var made;
    p, made := Reached(scenario, s, moves);
  }

  /** On entering an event, the id table names exactly what earlier events created. */
  lemma EnteringTable(scenario: Scenario, s: State, moves: seq<Move>)
    requires Replayable(scenario) && Declared(scenario) && Initial(scenario, s)
    ensures var r := Run(scenario, s, moves);
      r.process.Entering? ==>
        && r.process.k <= |scenario.events|
        && r.process.ids == Table(scenario, r.journal, r.process.k)
        && r.process.ids.Keys == CreatedBefore(scenario.events, r.process.k)
  {
    hide Initial, Replayable, Run, At, HandOk, HistoryOk, JournalOk, Table;
    var p, made := Reached(scenario, s, moves);
    var r := Run(scenario, s, moves);
    if r.process.Entering? { TableKeys(scenario, r.journal, p, r.process.k); }
  }

  /** Building a request never fails: every reference the loader accepted resolves. */
  lemma BuildNeverFails(scenario: Scenario, s: State, moves: seq<Move>)
    requires Replayable(scenario) && Declared(scenario) && Initial(scenario, s)
    ensures var r := Run(scenario, s, moves);
      r.process.Building? ==>
        && r.process.k < |scenario.events|
        && Build(scenario, r.process.ids, scenario.events[r.process.k], r.fixture).Some?
  {
    hide Initial, Replayable, Run, At, HandOk, HistoryOk, JournalOk, Table, Build;
    var p, made := Reached(scenario, s, moves);
    var r := Run(scenario, s, moves);
    if r.process.Building? { BuildsAt(scenario, r, p, made); }
  }

  lemma BuildsAt(scenario: Scenario, s: State, p: nat, made: IdTable)
    requires Replayable(scenario) && Declared(scenario) && p < |scenario.events|
    requires DurableOk(scenario, s, p, made)
    ensures var ids, event := Table(scenario, s.journal, p), scenario.events[p];
      && Build(scenario, ids, event, s.fixture).Some?
      && (Accepts(s.fixture, Build(scenario, ids, event, s.fixture).value)
          || (IsCreate(event) && Committed(scenario, s, p)))
  {
    hide At, HistoryOk, Table, Build, Accepts, Replayable, LedgerOk;
    var ids, event := Table(scenario, s.journal, p), scenario.events[p];
    Resolves(scenario, p);
    TableKeys(scenario, s.journal, p, p);
    hide JournalOk;
    if Committed(scenario, s, p) {
      BuildsAfter(scenario, p, ids, made, s.fixture);
    } else {
      BuildsBefore(scenario, p, ids, s.fixture);
    }
  }

  lemma BuildsBefore(scenario: Scenario, p: nat, ids: IdTable, fixture: Fixture)
    requires Replayable(scenario) && Declared(scenario) && p < |scenario.events|
    requires At(scenario, p, ids, fixture)
    ensures Build(scenario, ids, scenario.events[p], fixture).Some?
    ensures Accepts(fixture, Build(scenario, ids, scenario.events[p], fixture).value)
  {
    ReadyAt(scenario, p, ids, fixture);
    assert Located(ids, Fold(scenario, p), fixture);
    BuildSucceeds(scenario, ids, Fold(scenario, p), scenario.events[p], fixture);
  }

  /** Rebuilding after the commit: the table then lacks only what this event made. */
  lemma BuildsAfter(scenario: Scenario, p: nat, ids: IdTable, made: IdTable, fixture: Fixture)
    requires Replayable(scenario) && Declared(scenario) && p < |scenario.events|
    requires ids.Keys == CreatedBefore(scenario.events, p)
    requires made.Keys == Creates(scenario.events[p]) && At(scenario, p + 1, ids + made, fixture)
    ensures Build(scenario, ids, scenario.events[p], fixture).Some?
    ensures IsCreate(scenario.events[p]) || Accepts(fixture, Build(scenario, ids, scenario.events[p], fixture).value)
  {
    Resolves(scenario, p);
    assert Located(ids + made, Fold(scenario, p + 1), fixture);
    hide At, Replayable, Located;
    BuildLocated(scenario, ids, made, Fold(scenario, p + 1), scenario.events[p], fixture);
  }

  lemma BuildLocated(scenario: Scenario, ids: IdTable, made: IdTable, exp: Expectation, event: Event, fixture: Fixture)
    requires Actors(event) <= scenario.emails.Keys
    requires Uses(event) <= ids.Keys && made.Keys !! ids.Keys && Located(ids + made, exp, fixture)
    ensures Build(scenario, ids, event, fixture).Some?
    ensures IsCreate(event) || Accepts(fixture, Build(scenario, ids, event, fixture).value)
  {
    match event.action
    case BugCreate(_, _, _, _, _, _, _, dependsOn, blocks) =>
      AllResolve(ids, dependsOn);
      AllResolve(ids, blocks);
    case BugUpdate(bug, _, _, _, _, _, dependsOn, blocks, _) =>
      assert BugRef(bug) in Uses(event);
      AllResolve(ids, OptionalList(dependsOn));
      AllResolve(ids, OptionalList(blocks));
    case AttachmentUpdate(attachment, _, _) => assert AttachmentRef(attachment) in Uses(event);
    case _ => assert BugRef(event.action.bug) in Uses(event);
  }

  // ----- End to end -----

  /** A run that ends without error, however faulty, leaves the server agreeing with the fold of
      the whole scenario, under the id table the run ends with. */
  lemma EndToEnd(scenario: Scenario, s: State, moves: seq<Move>)
    requires Replayable(scenario) && Declared(scenario) && Initial(scenario, s)
    requires Run(scenario, s, moves).process.Finished?
    ensures var r := Run(scenario, s, moves);
      && r.process.ids == Table(scenario, r.journal, |scenario.events|)
      && Agrees(Current(scenario, |scenario.events|), scenario, r.process.ids,
                Fold(scenario, |scenario.events|), r.fixture)
  {
    hide Initial, Replayable, Run, Agrees, HandOk, HistoryOk, JournalOk, Table, Fold;
    var p, made := Reached(scenario, s, moves);
  }
}
