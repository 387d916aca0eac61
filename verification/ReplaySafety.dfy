/** What every run keeps: the invariant tying the journal, the server and the number of commits of
    each event together, and the theorems over all runs that follow from it. */
module ReplaySafety {
  import opened Prelude
  import opened Scenarios
  import opened Fixtures
  import opened Records
  import opened Actions
  import opened Recovery
  import opened ReplayMachine

  // ----- The invariant -----

  predicate Advances(history: seq<Attempt>)
  {
    history != [] && history[|history| - 1].Completed? && history[|history| - 1].next == Advance
  }

  predicate Retries(history: seq<Attempt>)
  {
    history != [] && history[|history| - 1].Completed? && history[|history| - 1].next == Retry
  }

  predicate IsOpen(history: seq<Attempt>)
  {
    history != [] && history[|history| - 1].InFlight?
  }

  /** A well-formed history of the event's own attempts. Replay never writes `reconcile`. */
  ghost predicate HistoryOk(scenario: Scenario, event: Event, history: seq<Attempt>)
  {
    && ValidHistory(event.name, history)
    && (forall i | 0 <= i < |history| :: history[i].identity == IdentityOf(scenario, event))
    && (forall i | 0 <= i < |history| :: history[i].Completed? ==> history[i].next != Reconsider)
    && (Advances(history) ==> history[|history| - 1].outcome.Keys == Creates(event))
  }

  /** The first `p` events are done, and of the others only event `p` has any record. */
  ghost predicate JournalOk(scenario: Scenario, journal: Journal, p: nat)
    requires p <= |scenario.events|
  {
    var events := scenario.events;
    && journal.Keys <= Names(scenario)
    && (forall i | 0 <= i < |events| :: HistoryOk(scenario, events[i], History(journal, events[i])))
    && (forall i | 0 <= i < p :: Advances(History(journal, events[i])))
    && (forall i | p < i < |events| :: History(journal, events[i]) == [])
    && (p < |events| ==> !Advances(History(journal, events[p])))
  }

  /** Create and append events: one commit each when done, none when not started, never two. */
  ghost predicate LedgerOk(scenario: Scenario, sent: seq<string>, p: nat)
    requires p <= |scenario.events|
  {
    var events := scenario.events;
    && (forall i | 0 <= i < p && !IsIdempotent(events[i]) :: Commits(sent, events[i]) == 1)
    && (forall i | p < i < |events| :: Commits(sent, events[i]) == 0)
    && (p < |events| && !IsIdempotent(events[p]) ==> Commits(sent, events[p]) <= 1)
  }

  /** What event `p`'s latest record says about its commits. */
  predicate AttemptOk(event: Event, history: seq<Attempt>, commits: nat)
  {
    && (history == [] ==> commits == 0)
    && (IsAppend(event) && Retries(history) ==> commits == 0)
  }

  /** The server is where the events committed so far put it. `made` names what an event whose
      record is not yet written has created. */
  ghost predicate ServerOk(scenario: Scenario, p: nat, ids: IdTable, fixture: Fixture,
                           committed: bool, made: IdTable)
    requires p <= |scenario.events|
  {
    if committed then
      p < |scenario.events| && made.Keys == Creates(scenario.events[p])
          && At(scenario, p + 1, ids + made, fixture)
    else At(scenario, p, ids, fixture)
  }

  /** A verdict that may be acted on: `advance` means the server is where the event leaves it, and
      `retry` of an append means it has not been committed. */
  ghost predicate VerdictOk(scenario: Scenario, p: nat, ids: IdTable, fixture: Fixture,
                            commits: nat, verdict: Verdict)
    requires p < |scenario.events|
  {
    var event := scenario.events[p];
    && verdict.next != Reconsider
    && (IsAppend(event) && verdict.next == Retry ==> commits == 0)
    && (verdict.next == Advance ==>
         && verdict.ids.Keys == Creates(event)
         && (!IsIdempotent(event) ==> commits == 1)
         && At(scenario, p + 1, ids + verdict.ids, fixture))
  }

  /** No attempt is under way and the next one may start. */
  predicate NextAttempt(history: seq<Attempt>, attempt: int)
  {
    attempt == |history| + 1 && (history == [] || Retries(history))
  }

  predicate OpenAttempt(history: seq<Attempt>, attempt: int)
  {
    attempt == |history| && IsOpen(history)
  }

  /** A process at work is at work on event `p`, and knows exactly the earlier events' ids. */
  ghost predicate AtWork(scenario: Scenario, journal: Journal, p: nat, k: nat, ids: IdTable)
    requires p <= |scenario.events|
  {
    k == p < |scenario.events| && ids == Table(scenario, journal, p)
  }

  /** The process is in step with the journal. */
  ghost predicate ProcessOk(scenario: Scenario, journal: Journal, process: Process, p: nat)
    requires p <= |scenario.events|
  {
    match process
    case Down => true
    case Sweeping(k) => journal == map[] && k <= |scenario.events|
    case Entering(k, ids) => k <= p && ids == Table(scenario, journal, k)
    case Building(k, ids, attempt) =>
      AtWork(scenario, journal, p, k, ids) && NextAttempt(History(journal, scenario.events[p]), attempt)
    case Recording(k, ids, attempt, _) =>
      AtWork(scenario, journal, p, k, ids) && NextAttempt(History(journal, scenario.events[p]), attempt)
    case Sending(k, ids, attempt, _) =>
      AtWork(scenario, journal, p, k, ids) && OpenAttempt(History(journal, scenario.events[p]), attempt)
    case Answered(k, ids, attempt, _) =>
      AtWork(scenario, journal, p, k, ids) && OpenAttempt(History(journal, scenario.events[p]), attempt)
    case Unsettled(k, ids, attempt, _) =>
      AtWork(scenario, journal, p, k, ids) && OpenAttempt(History(journal, scenario.events[p]), attempt)
    case Settled(k, ids, attempt, _, _) =>
      AtWork(scenario, journal, p, k, ids) && OpenAttempt(History(journal, scenario.events[p]), attempt)
    case Finished(ids) => p == |scenario.events| && ids == Table(scenario, journal, p)
  }

  /** What the process has in hand is right for the server as it is. */
  ghost predicate HandOk(scenario: Scenario, s: State, p: nat, made: IdTable)
    requires Declared(scenario) && p <= |scenario.events|
  {
    p < |scenario.events| ==>
      match s.process
      case Recording(_, ids, _, request) => Build(scenario, ids, scenario.events[p], s.fixture) == Some(request)
      case Sending(_, ids, _, request) =>
        && Build(scenario, ids, scenario.events[p], s.fixture) == Some(request)
        && (IsAppend(scenario.events[p]) ==> Commits(s.sent, scenario.events[p]) == 0)
      case Answered(_, _, _, answer) => answer == made && Commits(s.sent, scenario.events[p]) > 0
      case Settled(_, ids, _, _, verdict) =>
        VerdictOk(scenario, p, ids, s.fixture, Commits(s.sent, scenario.events[p]), verdict)
      case _ => true
  }

  predicate Committed(scenario: Scenario, s: State, p: nat)
    requires p <= |scenario.events|
  {
    p < |scenario.events| && Commits(s.sent, scenario.events[p]) > 0
  }

  /** The durable part: journal, ledger and server agree that the scenario has got to event `p`. */
  ghost predicate DurableOk(scenario: Scenario, s: State, p: nat, made: IdTable)
  {
    && p <= |scenario.events|
    && JournalOk(scenario, s.journal, p)
    && LedgerOk(scenario, s.sent, p)
    && (p < |scenario.events| ==>
          AttemptOk(scenario.events[p], History(s.journal, scenario.events[p]), Commits(s.sent, scenario.events[p])))
    && ServerOk(scenario, p, Table(scenario, s.journal, p), s.fixture, Committed(scenario, s, p), made)
  }

  ghost predicate Inv(scenario: Scenario, s: State, p: nat, made: IdTable)
    requires Declared(scenario)
  {
    && DurableOk(scenario, s, p, made)
    && ProcessOk(scenario, s.journal, s.process, p) && HandOk(scenario, s, p, made)
  }

  // ----- Names keep events apart -----

  lemma ReplayableDeclares(scenario: Scenario)
    requires Replayable(scenario)
    ensures Declared(scenario)
  {
    forall event | event in scenario.events ensures Actors(event) <= scenario.emails.Keys {
      var i :| 0 <= i < |scenario.events| && scenario.events[i] == event;
      assert EventResolves(scenario.emails, scenario.events, i);
    }
  }

  lemma OthersKept(scenario: Scenario, journal: Journal, p: nat, history: seq<Attempt>)
    requires Replayable(scenario) && p < |scenario.events|
    ensures var next := journal[scenario.events[p].name := history];
      forall i | 0 <= i < |scenario.events| ::
        History(next, scenario.events[i]) == if i == p then history else History(journal, scenario.events[i])
  {
    forall i | 0 <= i < |scenario.events| && i != p
      ensures scenario.events[i].name != scenario.events[p].name
    {
      if i < p { assert scenario.events[i].name != scenario.events[p].name; }
    }
  }

  lemma OthersNotSent(scenario: Scenario, sent: seq<string>, p: nat)
    requires Replayable(scenario) && p < |scenario.events|
    ensures forall i | 0 <= i < |scenario.events| ::
      Commits(sent + [scenario.events[p].name], scenario.events[i])
      == Commits(sent, scenario.events[i]) + if i == p then 1 else 0
  {
    forall i | 0 <= i < |scenario.events| && i != p
      ensures scenario.events[i].name != scenario.events[p].name
    {
      if i < p { assert scenario.events[i].name != scenario.events[p].name; }
    }
  }

  lemma {:induction false} TableFrame(scenario: Scenario, journal: Journal, next: Journal, k: nat)
    requires k <= |scenario.events|
    requires forall i | 0 <= i < k :: History(next, scenario.events[i]) == History(journal, scenario.events[i])
    ensures Table(scenario, next, k) == Table(scenario, journal, k)
  {
    if k > 0 { TableFrame(scenario, journal, next, k - 1); }
  }

  lemma {:induction false} TableKeys(scenario: Scenario, journal: Journal, p: nat, k: nat)
    requires k <= p <= |scenario.events| && JournalOk(scenario, journal, p)
    ensures Table(scenario, journal, k).Keys == CreatedBefore(scenario.events, k)
  {
    hide JournalOk, Creates, ReplayMachine.History;
    if k > 0 {
      TableKeys(scenario, journal, p, k - 1);
      DoneNamesCreated(scenario, journal, p, k - 1);
    }
  }

  lemma DoneNamesCreated(scenario: Scenario, journal: Journal, p: nat, i: nat)
    requires i < p <= |scenario.events| && JournalOk(scenario, journal, p)
    ensures var history := History(journal, scenario.events[i]);
      Advances(history) && history[|history| - 1].outcome.Keys == Creates(scenario.events[i])
  {
    assert HistoryOk(scenario, scenario.events[i], History(journal, scenario.events[i]));
  }

  // ----- Journal writes -----

  /** `write_in_flight` succeeds where replay calls it. */
  lemma StartKeepsHistory(scenario: Scenario, event: Event, history: seq<Attempt>, attempt: int)
    requires HistoryOk(scenario, event, history) && NextAttempt(history, attempt)
    ensures var record := InFlight(event.name, attempt, IdentityOf(scenario, event));
      MayStart(history, record) && HistoryOk(scenario, event, history + [record])
  {
    StartKeepsValid(event.name, history, InFlight(event.name, attempt, IdentityOf(scenario, event)));
  }

  /** `replace_completed` succeeds where replay calls it. */
  lemma FinishKeepsHistory(scenario: Scenario, event: Event, history: seq<Attempt>, outcome: IdTable, next: NextAction)
    requires HistoryOk(scenario, event, history) && IsOpen(history)
    requires next != Reconsider && (next == Advance ==> outcome.Keys == Creates(event))
    ensures var record := Completed(event.name, |history|, IdentityOf(scenario, event), outcome, next);
      && MayComplete(history, record)
      && HistoryOk(scenario, event, history[|history| - 1 := record])
  {
    CompleteKeepsValid(event.name, history,
                       Completed(event.name, |history|, IdentityOf(scenario, event), outcome, next));
  }

  /** Replacing event `p`'s history by a well-formed one. */
  lemma WriteKeepsJournal(scenario: Scenario, journal: Journal, p: nat, history: seq<Attempt>)
    requires Replayable(scenario) && p < |scenario.events| && JournalOk(scenario, journal, p)
    requires HistoryOk(scenario, scenario.events[p], history)
    ensures JournalOk(scenario, journal[scenario.events[p].name := history], if Advances(history) then p + 1 else p)
  {
    hide HistoryOk;
    OthersKept(scenario, journal, p, history);
  }

  lemma WriteKeepsTable(scenario: Scenario, journal: Journal, p: nat, history: seq<Attempt>)
    requires Replayable(scenario) && p < |scenario.events|
    ensures var next := journal[scenario.events[p].name := history];
      && Table(scenario, next, p) == Table(scenario, journal, p)
      && (Advances(history) ==>
            Table(scenario, next, p + 1) == Table(scenario, journal, p) + history[|history| - 1].outcome)
  {
    OthersKept(scenario, journal, p, history);
    TableFrame(scenario, journal, journal[scenario.events[p].name := history], p);
  }

  // ----- One step -----

  /** A step that changes only the process. */
  lemma Moves(scenario: Scenario, s: State, p: nat, made: IdTable, process: Process)
    requires Declared(scenario) && DurableOk(scenario, s, p, made)
    requires ProcessOk(scenario, s.journal, process, p)
    requires HandOk(scenario, s.(process := process), p, made)
    ensures Inv(scenario, s.(process := process), p, made)
  {
  }

  lemma TableNext(scenario: Scenario, journal: Journal, k: nat)
    requires k < |scenario.events| && Advances(History(journal, scenario.events[k]))
    ensures var history := History(journal, scenario.events[k]);
      Table(scenario, journal, k + 1) == Table(scenario, journal, k) + history[|history| - 1].outcome
  {
  }

  lemma EnterDone(scenario: Scenario, s: State, p: nat, k: nat, reply: Reply)
    requires k < p <= |scenario.events| && Advances(History(s.journal, scenario.events[k]))
    ensures Enter(scenario, s, k, Table(scenario, s.journal, k), reply)
        == Entering(k + 1, Table(scenario, s.journal, k + 1))
    ensures ProcessOk(scenario, s.journal, Enter(scenario, s, k, Table(scenario, s.journal, k), reply), p)
  {
    TableNext(scenario, s.journal, k);
  }

  lemma EnterOpen(scenario: Scenario, s: State, p: nat, ids: IdTable, reply: Reply)
    requires p < |scenario.events| && HistoryOk(scenario, scenario.events[p], History(s.journal, scenario.events[p]))
    requires !Advances(History(s.journal, scenario.events[p])) && ids == Table(scenario, s.journal, p)
    ensures ProcessOk(scenario, s.journal, Enter(scenario, s, p, ids, reply), p)
  {
  }

  /** Dispatch on the latest record keeps the process and the journal in step. */
  lemma EnterKeepsProcess(scenario: Scenario, s: State, p: nat, reply: Reply)
    requires p <= |scenario.events| && JournalOk(scenario, s.journal, p)
    requires s.process.Entering? && ProcessOk(scenario, s.journal, s.process, p)
    ensures ProcessOk(scenario, s.journal, Enter(scenario, s, s.process.k, s.process.ids, reply), p)
  {
    hide HistoryOk, Table, Enter, ReplayMachine.History;
    var k, ids := s.process.k, s.process.ids;
    if k < p {
      EnterDone(scenario, s, p, k, reply);
    } else if p < |scenario.events| {
      EnterOpen(scenario, s, p, ids, reply);
    } else {
      EnterEnd(scenario, s, ids, reply);
    }
  }

  lemma EnterEnd(scenario: Scenario, s: State, ids: IdTable, reply: Reply)
    ensures Enter(scenario, s, |scenario.events|, ids, reply) == Finished(ids)
  {
  }

  lemma EnterStep(scenario: Scenario, s: State, p: nat, made: IdTable, chance: Chance)
    requires Declared(scenario) && Inv(scenario, s, p, made) && s.process.Entering?
    ensures Inv(scenario, Proceed(scenario, s, chance), p, made)
  {
    hide At, HistoryOk, ServerOk, Table, LedgerOk, VerdictOk;
    EnterKeepsProcess(scenario, s, p, chance.reply);
    Moves(scenario, s, p, made, Enter(scenario, s, s.process.k, s.process.ids, chance.reply));
  }

  /** Writing an attempt of event `p` that leaves it undone. */
  lemma WriteUndone(scenario: Scenario, s: State, p: nat, made: IdTable, history: seq<Attempt>)
    requires Replayable(scenario) && p < |scenario.events| && DurableOk(scenario, s, p, made)
    requires HistoryOk(scenario, scenario.events[p], history) && !Advances(history)
    requires AttemptOk(scenario.events[p], history, Commits(s.sent, scenario.events[p]))
    ensures DurableOk(scenario, s.(journal := s.journal[scenario.events[p].name := history]), p, made)
    ensures Table(scenario, s.journal[scenario.events[p].name := history], p) == Table(scenario, s.journal, p)
    ensures History(s.journal[scenario.events[p].name := history], scenario.events[p]) == history
  {
    hide At, HistoryOk, JournalOk, ServerOk, Table, LedgerOk, Replayable;
    WriteKeepsJournal(scenario, s.journal, p, history);
    WriteKeepsTable(scenario, s.journal, p, history);
  }

  /** Writing the attempt that completes event `p`. */
  lemma WriteDone(scenario: Scenario, s: State, p: nat, made: IdTable, history: seq<Attempt>)
    requires Replayable(scenario) && p < |scenario.events| && DurableOk(scenario, s, p, made)
    requires HistoryOk(scenario, scenario.events[p], history) && Advances(history)
    requires !IsIdempotent(scenario.events[p]) ==> Commits(s.sent, scenario.events[p]) == 1
    requires At(scenario, p + 1, Table(scenario, s.journal, p) + history[|history| - 1].outcome, s.fixture)
    ensures DurableOk(scenario, s.(journal := s.journal[scenario.events[p].name := history]), p + 1, map[])
    ensures Table(scenario, s.journal[scenario.events[p].name := history], p + 1)
         == Table(scenario, s.journal, p) + history[|history| - 1].outcome
  {
    hide At, HistoryOk, JournalOk, Table, LedgerOk, Replayable, IsIdempotent;
    WriteKeepsJournal(scenario, s.journal, p, history);
    WriteKeepsTable(scenario, s.journal, p, history);
    LedgerNext(scenario, s, p);
    if p + 1 < |scenario.events| { WriteKeepsNext(scenario, s.journal, p, history); }
  }

  lemma LedgerNext(scenario: Scenario, s: State, p: nat)
    requires p < |scenario.events| && LedgerOk(scenario, s.sent, p)
    requires !IsIdempotent(scenario.events[p]) ==> Commits(s.sent, scenario.events[p]) == 1
    ensures LedgerOk(scenario, s.sent, p + 1)
    ensures p + 1 < |scenario.events| ==> Commits(s.sent, scenario.events[p + 1]) == 0
  {
  }

  lemma WriteKeepsNext(scenario: Scenario, journal: Journal, p: nat, history: seq<Attempt>)
    requires Replayable(scenario) && p + 1 < |scenario.events| && JournalOk(scenario, journal, p)
    ensures History(journal[scenario.events[p].name := history], scenario.events[p + 1]) == []
  {
    OthersKept(scenario, journal, p, history);
  }

  /** The in-flight record is written, and the attempt is open. */
  lemma Started(scenario: Scenario, s: State, p: nat, made: IdTable, attempt: int, request: Request)
    requires Replayable(scenario) && p < |scenario.events| && DurableOk(scenario, s, p, made)
    requires NextAttempt(History(s.journal, scenario.events[p]), attempt)
    ensures var s' := Start(scenario, s, p, Table(scenario, s.journal, p), attempt, request);
      && DurableOk(scenario, s', p, made) && ProcessOk(scenario, s'.journal, s'.process, p)
      && s'.fixture == s.fixture && s'.sent == s.sent && (s'.process.Down? || s'.process.Sending?)
  {
    hide At, HistoryOk, ServerOk, Table, LedgerOk, Replayable, Readable, MayStart, JournalOk;
    var event := scenario.events[p];
    var history := History(s.journal, event);
    HistoryAt(scenario, s.journal, p, p);
    StartKeepsHistory(scenario, event, history, attempt);
    WriteUndone(scenario, s, p, made, history + [InFlight(event.name, attempt, IdentityOf(scenario, event))]);
  }

  lemma HistoryAt(scenario: Scenario, journal: Journal, p: nat, i: nat)
    requires p <= |scenario.events| && JournalOk(scenario, journal, p) && i < |scenario.events|
    ensures HistoryOk(scenario, scenario.events[i], History(journal, scenario.events[i]))
  {
  }

  lemma StartStep(scenario: Scenario, s: State, p: nat, made: IdTable, chance: Chance)
    requires Replayable(scenario) && Declared(scenario) && Inv(scenario, s, p, made) && s.process.Recording?
    ensures Inv(scenario, Proceed(scenario, s, chance), p, made)
  {
    hide At, ServerOk, Table, LedgerOk, Replayable, Build, Readable, MayStart, JournalOk, ReplayMachine.History;
    Started(scenario, s, p, made, s.process.attempt, s.process.request);
  }

  lemma PrepareStep(scenario: Scenario, s: State, p: nat, made: IdTable, chance: Chance)
    requires Declared(scenario) && Inv(scenario, s, p, made) && s.process.Building?
    ensures Inv(scenario, Proceed(scenario, s, chance), p, made)
  {
    hide At, ServerOk, Table, LedgerOk, Build, JournalOk, ReplayMachine.History;
    Moves(scenario, s, p, made, Proceed(scenario, s, chance).process);
  }

  // ----- The mutation -----

  lemma ResolvedCreates(event: Event, fixture: Fixture)
    ensures ResolvedIds(event, fixture).Keys == Creates(event)
  {
  }

  lemma NothingAdded(ids: IdTable, made: IdTable)
    requires made.Keys == {}
    ensures ids + made == ids
  {
  }

  /** A create event whose bug exists cannot commit again: the server refuses its alias. */
  lemma LiveAliasRefuses(scenario: Scenario, p: nat, ids: IdTable, made: IdTable, fixture: Fixture)
    requires Replayable(scenario) && Declared(scenario) && p < |scenario.events| && IsCreate(scenario.events[p])
    requires made.Keys == Creates(scenario.events[p]) && At(scenario, p + 1, ids + made, fixture)
    requires Build(scenario, ids, scenario.events[p], fixture).Some?
    ensures !Accepts(fixture, Build(scenario, ids, scenario.events[p], fixture).value)
  {
    hide At;
    assert EventResolves(scenario.emails, scenario.events, p);
    CreateVerdictAfter(scenario, p, ids, made, fixture, Answer);
  }

  /** Committing an idempotent event's request again leaves the server where it was. */
  lemma RepeatKeepsServer(scenario: Scenario, p: nat, ids: IdTable, made: IdTable, fixture: Fixture)
    requires Replayable(scenario) && Declared(scenario)
    requires p < |scenario.events| && IsIdempotent(scenario.events[p])
    requires made.Keys == Creates(scenario.events[p]) && At(scenario, p + 1, ids + made, fixture)
    requires Build(scenario, ids, scenario.events[p], fixture).Some?
    requires Accepts(fixture, Build(scenario, ids, scenario.events[p], fixture).value)
    ensures var event := scenario.events[p];
      && event.actor in scenario.emails && ResolvedIds(event, fixture).Keys == Creates(event)
      && At(scenario, p + 1, ids + ResolvedIds(event, fixture),
            Commit(fixture, scenario.emails[event.actor], Build(scenario, ids, event, fixture).value))
  {
    hide At, Build, Accepts, Commit, Replayable;
    var event := scenario.events[p];
    assert event.actor in Actors(event);
    Resolves(scenario, p);
    NothingAdded(ids, made);
    AtCommitAgain(scenario, p, ids, fixture);
    ResolvedCreates(event, fixture);
    NothingAdded(ids, ResolvedIds(event, fixture));
  }

  lemma Resolves(scenario: Scenario, p: nat)
    requires Replayable(scenario) && p < |scenario.events|
    ensures EventResolves(scenario.emails, scenario.events, p)
  {
  }

  /** Where the server stands after a commit, first or repeated. */
  lemma CommitKeepsServer(scenario: Scenario, p: nat, ids: IdTable, fixture: Fixture,
                          committed: bool, made: IdTable)
    requires Replayable(scenario) && Declared(scenario) && p < |scenario.events|
    requires ServerOk(scenario, p, ids, fixture, committed, made)
    requires Build(scenario, ids, scenario.events[p], fixture).Some?
    requires Accepts(fixture, Build(scenario, ids, scenario.events[p], fixture).value)
    requires committed ==> !IsAppend(scenario.events[p])
    ensures var event := scenario.events[p];
      && event.actor in scenario.emails
      && (committed ==> IsIdempotent(event))
      && ServerOk(scenario, p, ids,
                  Commit(fixture, scenario.emails[event.actor], Build(scenario, ids, event, fixture).value),
                  true, ResolvedIds(event, fixture))
  {
    hide At, Build, Accepts, Commit, Replayable;
    var event := scenario.events[p];
    assert event.actor in Actors(event);
    Resolves(scenario, p);
    ResolvedCreates(event, fixture);
    if committed {
      if IsCreate(event) { LiveAliasRefuses(scenario, p, ids, made, fixture); }
      RepeatKeepsServer(scenario, p, ids, made, fixture);
    } else {
      AtCommit(scenario, p, ids, fixture);
    }
  }

  lemma CommitKeepsLedger(scenario: Scenario, sent: seq<string>, p: nat)
    requires Replayable(scenario) && p < |scenario.events| && LedgerOk(scenario, sent, p)
    requires !IsIdempotent(scenario.events[p]) ==> Commits(sent, scenario.events[p]) == 0
    ensures LedgerOk(scenario, sent + [scenario.events[p].name], p)
    ensures Commits(sent + [scenario.events[p].name], scenario.events[p]) == Commits(sent, scenario.events[p]) + 1
  {
    hide Replayable;
    OthersNotSent(scenario, sent, p);
  }

  /** The request reaches the server and commits, whether or not the reply comes back. */
  lemma SendCommits(scenario: Scenario, s: State, p: nat, made: IdTable, chance: Chance)
    requires Replayable(scenario) && Declared(scenario)
    requires Inv(scenario, s, p, made) && s.process.Sending?
    requires chance.commits && Accepts(s.fixture, s.process.request)
    ensures Inv(scenario, Proceed(scenario, s, chance), p, ResolvedIds(scenario.events[p], s.fixture))
  {
    hide At, Build, Accepts, Commit, Replayable, ResolvedIds, Table, JournalOk, ReplayMachine.History;
    CommitKeepsServer(scenario, p, s.process.ids, s.fixture, Committed(scenario, s, p), made);
    CommitKeepsLedger(scenario, s.sent, p);
  }

  lemma SendRefused(scenario: Scenario, s: State, p: nat, made: IdTable, chance: Chance)
    requires Replayable(scenario) && Declared(scenario)
    requires Inv(scenario, s, p, made) && s.process.Sending?
    requires !(chance.commits && Accepts(s.fixture, s.process.request))
    ensures Inv(scenario, Proceed(scenario, s, chance), p, made)
  {
    hide At, Build, Accepts, Commit, Replayable, Table, JournalOk, LedgerOk, ServerOk, ReplayMachine.History;
    Moves(scenario, s, p, made, Proceed(scenario, s, chance).process);
  }

  // ----- Reconciliation -----

  /** A verdict read after the event's commit, if it had one, may be acted on. */
  lemma VerdictSound(scenario: Scenario, p: nat, ids: IdTable, fixture: Fixture, commits: nat,
                     made: IdTable, reply: Reply)
    requires Replayable(scenario) && Declared(scenario) && p < |scenario.events|
    requires ServerOk(scenario, p, ids, fixture, commits > 0, made)
    requires ids.Keys == CreatedBefore(scenario.events, p)
    requires !IsIdempotent(scenario.events[p]) ==> commits <= 1
    requires Reconcile(scenario, ids, scenario.events[p], fixture, reply).Some?
    ensures VerdictOk(scenario, p, ids, fixture, commits,
                      Reconcile(scenario, ids, scenario.events[p], fixture, reply).value)
  {
    hide At, Replayable, Reconcile;
    var event := scenario.events[p];
    Resolves(scenario, p);
    if IsIdempotent(event) {
      IdempotentVerdict(scenario, p, ids, fixture, commits > 0, made, reply);
    } else if commits == 0 {
      if IsCreate(event) { CreateVerdictBefore(scenario, p, ids, fixture, reply); }
      else { AppendVerdictBefore(scenario, p, ids, fixture, reply); }
    } else {
      if IsCreate(event) { CreateVerdictAfter(scenario, p, ids, made, fixture, reply); }
      else { AppendVerdictAfter(scenario, p, ids, made, fixture, reply); }
    }
  }

  lemma NoIdsFromIdempotent(scenario: Scenario, ids: IdTable, event: Event, fixture: Fixture, reply: Reply)
    requires IsIdempotent(event) && Actors(event) <= scenario.emails.Keys
    requires Reconcile(scenario, ids, event, fixture, reply).Some?
    ensures Reconcile(scenario, ids, event, fixture, reply).value.ids == map[]
    ensures Reconcile(scenario, ids, event, fixture, reply).value.next in {Advance, Retry}
    ensures Creates(event) == {}
  {
  }

  lemma IdempotentVerdict(scenario: Scenario, p: nat, ids: IdTable, fixture: Fixture, committed: bool,
                          made: IdTable, reply: Reply)
    requires Replayable(scenario) && Declared(scenario) && p < |scenario.events|
    requires IsIdempotent(scenario.events[p])
    requires ServerOk(scenario, p, ids, fixture, committed, made)
    requires Reconcile(scenario, ids, scenario.events[p], fixture, reply).Some?
    ensures var verdict := Reconcile(scenario, ids, scenario.events[p], fixture, reply).value;
      && verdict.ids.Keys == Creates(scenario.events[p]) && verdict.next in {Advance, Retry}
      && (verdict.next == Advance ==> At(scenario, p + 1, ids + verdict.ids, fixture))
  {
    hide At, Replayable, Reconcile;
    var verdict := Reconcile(scenario, ids, scenario.events[p], fixture, reply).value;
    Resolves(scenario, p);
    NoIdsFromIdempotent(scenario, ids, scenario.events[p], fixture, reply);
    NothingAdded(ids, verdict.ids);
    if committed {
      NothingAdded(ids, made);
    } else if verdict.next == Advance {
      AtAdvance(scenario, p, ids, fixture, reply);
    }
  }

  lemma SettleStep(scenario: Scenario, s: State, p: nat, made: IdTable, chance: Chance)
    requires Replayable(scenario) && Declared(scenario)
    requires Inv(scenario, s, p, made) && s.process.Unsettled?
    ensures Inv(scenario, Proceed(scenario, s, chance), p, made)
  {
    hide At, Replayable, Table, Build, Reconcile, VerdictOk, ServerOk, ReplayMachine.History, HistoryOk;
    TableKeys(scenario, s.journal, p, p);
    hide JournalOk;
    if Reconcile(scenario, s.process.ids, scenario.events[p], s.fixture, chance.reply).Some? {
      VerdictSound(scenario, p, s.process.ids, s.fixture, Commits(s.sent, scenario.events[p]), made,
                   chance.reply);
    }
    Moves(scenario, s, p, made, Proceed(scenario, s, chance).process);
  }

  // ----- The completed record -----

  /** The completed record is written: with `advance`, event `p` is done. */
  lemma Completes(scenario: Scenario, s: State, p: nat, made: IdTable, attempt: int, verdict: Verdict,
                  onward: Process)
    requires Replayable(scenario) && p < |scenario.events| && DurableOk(scenario, s, p, made)
    requires OpenAttempt(History(s.journal, scenario.events[p]), attempt)
    requires VerdictOk(scenario, p, Table(scenario, s.journal, p), s.fixture,
                       Commits(s.sent, scenario.events[p]), verdict)
    ensures var event := scenario.events[p];
      var history := History(s.journal, event);
      var record := Completed(event.name, attempt, IdentityOf(scenario, event), verdict.ids, verdict.next);
      && MayComplete(history, record)
      && var done := history[attempt - 1 := record];
         var s' := s.(journal := s.journal[event.name := done], process := onward);
         && History(s'.journal, event) == done
         && Table(scenario, s'.journal, p) == Table(scenario, s.journal, p)
         && if verdict.next == Advance then
              && DurableOk(scenario, s', p + 1, map[])
              && Table(scenario, s'.journal, p + 1) == Table(scenario, s.journal, p) + verdict.ids
            else DurableOk(scenario, s', p, made)
  {
    hide At, Replayable, Table, ServerOk, HistoryOk, LedgerOk;
    var event := scenario.events[p];
    var history := History(s.journal, event);
    var record := Completed(event.name, attempt, IdentityOf(scenario, event), verdict.ids, verdict.next);
    HistoryAt(scenario, s.journal, p, p);
    hide JournalOk;
    FinishKeepsHistory(scenario, event, history, verdict.ids, verdict.next);
    var done := history[attempt - 1 := record];
    if verdict.next == Advance {
      WriteDone(scenario, s, p, made, done);
      WriteKeepsTable(scenario, s.journal, p, done);
    } else {
      WriteUndone(scenario, s, p, made, done);
    }
  }

  lemma SettledStep(scenario: Scenario, s: State, p: nat, made: IdTable, chance: Chance)
    requires Replayable(scenario) && Declared(scenario) && Inv(scenario, s, p, made) && s.process.Settled?
    ensures if s.process.verdict.next == Advance && Readable(s.journal)
            then Inv(scenario, Proceed(scenario, s, chance), p + 1, map[])
            else Inv(scenario, Proceed(scenario, s, chance), p, made)
  {
    hide At, Replayable, Table, ServerOk, HistoryOk, LedgerOk, JournalOk, Readable, MayComplete, ReplayMachine.History,
      VerdictOk;
    if Readable(s.journal) {
      Completes(scenario, s, p, made, s.process.attempt, s.process.verdict, Proceed(scenario, s, chance).process);
    }
  }

  /** A usable reply is as good as an `advance` verdict. */
  lemma AnswerSound(scenario: Scenario, s: State, p: nat, made: IdTable)
    requires Declared(scenario) && Inv(scenario, s, p, made) && s.process.Answered?
    ensures VerdictOk(scenario, p, Table(scenario, s.journal, p), s.fixture,
                      Commits(s.sent, scenario.events[p]), Verdict(Advance, made))
  {
    hide At, Table, HistoryOk, JournalOk, ReplayMachine.History;
  }

  lemma AnsweredStep(scenario: Scenario, s: State, p: nat, made: IdTable, chance: Chance)
    requires Replayable(scenario) && Declared(scenario) && Inv(scenario, s, p, made) && s.process.Answered?
    ensures if Readable(s.journal) then Inv(scenario, Proceed(scenario, s, chance), p + 1, map[])
            else Inv(scenario, Proceed(scenario, s, chance), p, made)
  {
    hide At, Replayable, Table, ServerOk, HistoryOk, LedgerOk, JournalOk, Readable, MayComplete, ReplayMachine.History,
      VerdictOk;
    AnswerSound(scenario, s, p, made);
    if Readable(s.journal) {
      Completes(scenario, s, p, made, s.process.attempt, Verdict(Advance, made),
                Proceed(scenario, s, chance).process);
    }
  }

  // ----- Every move -----

  lemma SweepStep(scenario: Scenario, s: State, p: nat, made: IdTable, chance: Chance)
    requires Declared(scenario) && Inv(scenario, s, p, made) && s.process.Sweeping?
    ensures Inv(scenario, Proceed(scenario, s, chance), p, made)
  {
    hide At, ServerOk, HistoryOk, LedgerOk, JournalOk;
    Moves(scenario, s, p, made, Proceed(scenario, s, chance).process);
  }

  lemma LaunchOrCrash(scenario: Scenario, s: State, p: nat, made: IdTable, move: Move)
    requires Declared(scenario) && Inv(scenario, s, p, made) && !move.Next?
    ensures Inv(scenario, Do(scenario, s, move), p, made)
  {
    hide At, ServerOk, HistoryOk, LedgerOk, JournalOk, Startable;
    Moves(scenario, s, p, made, Do(scenario, s, move).process);
  }

  lemma ProceedKeepsInv(scenario: Scenario, s: State, p: nat, made: IdTable, chance: Chance)
    returns (p': nat, made': IdTable)
    requires Replayable(scenario) && Declared(scenario)
    requires Inv(scenario, s, p, made)
    ensures Inv(scenario, Proceed(scenario, s, chance), p', made')
  {
    hide Inv, Replayable, Accepts, Readable;
    p', made' := p, made;
    match s.process
    case Down =>
    case Finished(_) =>
    case Sweeping(_) => SweepStep(scenario, s, p, made, chance);
    case Entering(_, _) => EnterStep(scenario, s, p, made, chance);
    case Building(_, _, _) => PrepareStep(scenario, s, p, made, chance);
    case Recording(_, _, _, _) => StartStep(scenario, s, p, made, chance);
    case Sending(_, _, _, request) =>
      if chance.commits && Accepts(s.fixture, request) {
        SendCommits(scenario, s, p, made, chance);
        WorkHasEvent(scenario, s, p, made);
        made' := ResolvedIds(scenario.events[p], s.fixture);
      } else {
        SendRefused(scenario, s, p, made, chance);
      }
    case Answered(_, _, _, _) =>
      AnsweredStep(scenario, s, p, made, chance);
      if Readable(s.journal) { p', made' := p + 1, map[]; }
    case Unsettled(_, _, _, _) => SettleStep(scenario, s, p, made, chance);
    case Settled(_, _, _, _, verdict) =>
      SettledStep(scenario, s, p, made, chance);
      if verdict.next == Advance && Readable(s.journal) { p', made' := p + 1, map[]; }
  }

  lemma WorkHasEvent(scenario: Scenario, s: State, p: nat, made: IdTable)
    requires Declared(scenario) && Inv(scenario, s, p, made) && s.process.Sending?
    ensures p < |scenario.events|
  {
    hide At, ServerOk, HistoryOk, LedgerOk, JournalOk, Table;
  }

  lemma StepKeepsInv(scenario: Scenario, s: State, p: nat, made: IdTable, move: Move)
    returns (p': nat, made': IdTable)
    requires Replayable(scenario) && Declared(scenario)
    requires Inv(scenario, s, p, made)
    ensures Inv(scenario, Do(scenario, s, move), p', made')
  {
    hide Inv, Replayable, Startable;
    p', made' := p, made;
    if move.Next? {
      p', made' := ProceedKeepsInv(scenario, s, p, made, move.chance);
    } else {
      LaunchOrCrash(scenario, s, p, made, move);
    }
  }

  lemma InitialInv(scenario: Scenario, s: State)
    requires Replayable(scenario) && Declared(scenario) && Initial(scenario, s)
    ensures Inv(scenario, s, 0, map[])
  {
    AtStart(scenario, s.fixture);
    hide At, Replayable;
  }

  /** The invariant holds after every run: any mix of `replay` and `resume`, with a crash, a lost
      reply, a failed or misread query possible at every step. */
  lemma {:induction false} RunKeepsInv(scenario: Scenario, s: State, moves: seq<Move>)
    returns (p: nat, made: IdTable)
    requires Replayable(scenario) && Declared(scenario) && Initial(scenario, s)
    ensures Inv(scenario, Run(scenario, s, moves), p, made)
    decreases |moves|
  {
    hide Inv, Replayable, Initial, Do;
    if moves == [] {
      InitialInv(scenario, s);
      p, made := 0, map[];
    } else {
      p, made := RunKeepsInv(scenario, s, moves[..|moves| - 1]);
      p, made := StepKeepsInv(scenario, Run(scenario, s, moves[..|moves| - 1]), p, made, moves[|moves| - 1]);
    }
  }
}
