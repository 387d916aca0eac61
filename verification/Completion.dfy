/** Which reachable states can still be brought to the end: all but those whose event in hand is
    recorded as ambiguous. A fault-free `resume` finishes every other one. */
module Completion {
  import opened AttemptFiles
  import opened Scenarios
  import opened Fixtures
  import opened Records
  import opened Actions
  import opened Simulation
  import opened Recovery
  import opened ReplayMachine
  import opened ReplaySafety
  import opened ReplayTheorems

  /** The surroundings at their best: queries answer, the mutation commits, its reply is usable. */
  const CLEAN := Chance(Answer, true, true)

  predicate Stopped(history: seq<Attempt>)
  {
    history != [] && history[|history| - 1].Completed? && history[|history| - 1].next == Stop
  }

  /** A live process that a fault-free environment will not stop. */
  ghost predicate OnTrack(scenario: Scenario, s: State, p: nat)
    requires p <= |scenario.events|
  {
    && Readable(s.journal)
    && (p < |scenario.events| ==>
          var history := History(s.journal, scenario.events[p]);
          !Stopped(history) && |history| + Needed(s.process) <= LAST_ATTEMPT)
    && match s.process
       case Down => false
       case Sweeping(_) => false
       case Unsettled(_, _, _, inRun) => inRun ==> Committed(scenario, s, p) && IsCreate(scenario.events[p])
       case Settled(_, _, _, inRun, verdict) =>
         verdict.next != Stop && (inRun ==> verdict.next == Advance)
       case _ => true
  }

  /** Attempt numbers the process may still take for the event in hand. */
  function Needed(process: Process): nat
  {
    match process
    case Entering(_, _) => 1
    case Building(_, _, _) => 1
    case Recording(_, _, _, _) => 1
    case Unsettled(_, _, _, inRun) => if inRun then 0 else 1
    case Settled(_, _, _, inRun, _) => if inRun then 0 else 1
    case _ => 0
  }

  /** How many steps, at most, are left. */
  function Rank(n: nat, process: Process): int
  {
    match process
    case Entering(k, _) => (n - k) * 12 + 11
    case Unsettled(k, _, _, inRun) => (n - k) * 12 + if inRun then 4 else 10
    case Settled(k, _, _, inRun, _) => (n - k) * 12 + if inRun then 3 else 9
    case Building(k, _, _) => (n - k) * 12 + 8
    case Recording(k, _, _, _) => (n - k) * 12 + 7
    case Sending(k, _, _, _) => (n - k) * 12 + 6
    case Answered(k, _, _, _) => (n - k) * 12 + 5
    case _ => 0
  }

  /** One clean step gets nearer the end. */
  ghost predicate Nearer(scenario: Scenario, s: State, next: State, p: nat, made: IdTable)
    requires Declared(scenario)
  {
    Inv(scenario, next, p, made) && OnTrack(scenario, next, p)
    && 0 <= Rank(|scenario.events|, next.process) < Rank(|scenario.events|, s.process)
  }

  lemma AbsentBeforeCommit(scenario: Scenario, s: State, p: nat, made: IdTable)
    requires Replayable(scenario) && p < |scenario.events| && DurableOk(scenario, s, p, made)
    requires History(s.journal, scenario.events[p]) == []
    ensures ReadsAbsent(scenario.events[p], s.fixture, Answer)
  {
    hide Agrees, FlagsAt, JournalOk, LedgerOk, Table, Replayable;
  }

  lemma EnterCleanly(scenario: Scenario, s: State, p: nat, made: IdTable)
    requires Replayable(scenario) && Declared(scenario) && Inv(scenario, s, p, made)
    requires s.process.Entering? && OnTrack(scenario, s, p)
    ensures Nearer(scenario, s, Proceed(scenario, s, CLEAN), p, made)
  {
    hide Replayable, At, HandOk, ServerOk, HistoryOk, LedgerOk, Table, ReadsAbsent, Readable;
    EnterStep(scenario, s, p, made, CLEAN);
    var k := s.process.k;
    if k < |scenario.events| {
      HistoryAt(scenario, s.journal, p, k);
      EntersCleanly(scenario, s, p, made);
    }
  }

  /** Every latest record but `stop` leads on. */
  lemma EntersCleanly(scenario: Scenario, s: State, p: nat, made: IdTable)
    requires Replayable(scenario) && Declared(scenario) && DurableOk(scenario, s, p, made)
    requires s.process.Entering? && s.process.k <= p && s.process.k < |scenario.events| && OnTrack(scenario, s, p)
    ensures var next := Enter(scenario, s, s.process.k, s.process.ids, Answer);
      || (next.Entering? && next.k == s.process.k + 1)
      || (next.Building? && next.k == s.process.k)
      || (next.Unsettled? && next.k == s.process.k && !next.inRun)
  {
    hide Replayable, At, ServerOk, LedgerOk, Table, ReadsAbsent, Readable;
    var k := s.process.k;
    var history := History(s.journal, scenario.events[k]);
    HistoryAt(scenario, s.journal, p, k);
    if k == p && history == [] { AbsentBeforeCommit(scenario, s, p, made); }
  }

  lemma PrepareCleanly(scenario: Scenario, s: State, p: nat, made: IdTable)
    requires Replayable(scenario) && Declared(scenario) && Inv(scenario, s, p, made)
    requires s.process.Building? && OnTrack(scenario, s, p)
    ensures Nearer(scenario, s, Proceed(scenario, s, CLEAN), p, made)
  {
    hide Replayable, At, ServerOk, HistoryOk, JournalOk, LedgerOk, Table, Build, Accepts, Readable;
    PrepareStep(scenario, s, p, made, CLEAN);
    BuildsAt(scenario, s, p, made);
  }

  lemma StartCleanly(scenario: Scenario, s: State, p: nat, made: IdTable)
    requires Replayable(scenario) && Declared(scenario) && Inv(scenario, s, p, made)
    requires s.process.Recording? && OnTrack(scenario, s, p)
    ensures Nearer(scenario, s, Proceed(scenario, s, CLEAN), p, made)
  {
    hide Replayable, At, ServerOk, HistoryOk, LedgerOk, Table, Build, Accepts, MayStart, HandOk;
    StartStep(scenario, s, p, made, CLEAN);
    HistoryAt(scenario, s.journal, p, p);
    hide JournalOk;
    StartKeepsHistory(scenario, scenario.events[p], History(s.journal, scenario.events[p]), s.process.attempt);
  }

  lemma SendCleanly(scenario: Scenario, s: State, p: nat, made: IdTable)
    returns (made': IdTable)
    requires Replayable(scenario) && Declared(scenario) && Inv(scenario, s, p, made)
    requires s.process.Sending? && OnTrack(scenario, s, p)
    ensures Nearer(scenario, s, Proceed(scenario, s, CLEAN), p, made')
  {
    hide Replayable, At, ServerOk, HistoryOk, JournalOk, LedgerOk, Table, Build, Accepts, Commit, Readable,
      ResolvedIds;
    BuildsAt(scenario, s, p, made);
    if Accepts(s.fixture, s.process.request) {
      SendCommits(scenario, s, p, made, CLEAN);
      made' := ResolvedIds(scenario.events[p], s.fixture);
    } else {
      SendRefused(scenario, s, p, made, CLEAN);
      made' := made;
    }
  }

  /** A query that answers never leaves the event ambiguous. */
  lemma AnswerDecides(scenario: Scenario, p: nat, ids: IdTable, fixture: Fixture, commits: nat,
                      made: IdTable)
    requires Replayable(scenario) && Declared(scenario) && p < |scenario.events|
    requires ServerOk(scenario, p, ids, fixture, commits > 0, made)
    requires ids.Keys == CreatedBefore(scenario.events, p)
    ensures var verdict := Reconcile(scenario, ids, scenario.events[p], fixture, Answer);
      verdict.Some? && verdict.value.next != Stop
          && (IsCreate(scenario.events[p]) && commits > 0 ==> verdict.value.next == Advance)
  {
    hide At, Replayable, Reconcile;
    var event := scenario.events[p];
    Resolves(scenario, p);
    if IsIdempotent(event) {
      ReconcileAnswers(scenario, ids, event, fixture);
      NoIdsFromIdempotent(scenario, ids, event, fixture, Answer);
    } else if commits == 0 {
      if IsCreate(event) { CreateVerdictBefore(scenario, p, ids, fixture, Answer); }
      else { AppendVerdictBefore(scenario, p, ids, fixture, Answer); }
    } else {
      if IsCreate(event) { CreateVerdictAfter(scenario, p, ids, made, fixture, Answer); }
      else { AppendVerdictAfter(scenario, p, ids, made, fixture, Answer); }
    }
  }

  lemma ReconcileAnswers(scenario: Scenario, ids: IdTable, event: Event, fixture: Fixture)
    requires Actors(event) <= scenario.emails.Keys && Uses(event) <= ids.Keys
    ensures Reconcile(scenario, ids, event, fixture, Answer).Some?
  {
    match event.action
    case BugCreate(_, _, _, _, _, _, _, _, _) =>
    case AttachmentUpdate(attachment, _, _) => assert AttachmentRef(attachment) in Uses(event);
    case _ => assert BugRef(event.action.bug) in Uses(event);
  }

  lemma SettleCleanly(scenario: Scenario, s: State, p: nat, made: IdTable)
    requires Replayable(scenario) && Declared(scenario) && Inv(scenario, s, p, made)
    requires s.process.Unsettled? && OnTrack(scenario, s, p)
    ensures Nearer(scenario, s, Proceed(scenario, s, CLEAN), p, made)
  {
    hide Replayable, At, ServerOk, HistoryOk, LedgerOk, Table, Build, Accepts, Readable, Reconcile;
    SettleStep(scenario, s, p, made, CLEAN);
    BuildsAt(scenario, s, p, made);
    TableKeys(scenario, s.journal, p, p);
    hide JournalOk;
    AnswerDecides(scenario, p, s.process.ids, s.fixture, Commits(s.sent, scenario.events[p]), made);
  }

  /** The completed record is written, and the run goes on. */
  lemma WriteCleanly(scenario: Scenario, s: State, p: nat, made: IdTable)
    returns (p': nat, made': IdTable)
    requires Replayable(scenario) && Declared(scenario) && Inv(scenario, s, p, made)
    requires (s.process.Settled? || s.process.Answered?) && OnTrack(scenario, s, p)
    ensures Nearer(scenario, s, Proceed(scenario, s, CLEAN), p', made')
  {
    hide Replayable, At, ServerOk, HistoryOk, LedgerOk, Table, JournalOk, MayComplete;
    var event := scenario.events[p];
    var verdict := if s.process.Settled? then s.process.verdict else Verdict(Advance, made);
    if s.process.Settled? {
      SettledStep(scenario, s, p, made, CLEAN);
    } else {
      AnsweredStep(scenario, s, p, made, CLEAN);
      AnswerSound(scenario, s, p, made);
    }
    p', made' := if verdict.next == Advance then p + 1 else p, if verdict.next == Advance then map[] else made;
    Completes(scenario, s, p, made, s.process.attempt, verdict, Proceed(scenario, s, CLEAN).process);
    if verdict.next == Advance && p + 1 < |scenario.events| {
      WriteKeepsNext(scenario, s.journal, p, History(Proceed(scenario, s, CLEAN).journal, event));
    }
  }

  lemma CleanStep(scenario: Scenario, s: State, p: nat, made: IdTable) returns (p': nat, made': IdTable)
    requires Replayable(scenario) && Declared(scenario) && Inv(scenario, s, p, made)
    requires OnTrack(scenario, s, p) && !s.process.Finished?
    ensures Nearer(scenario, s, Proceed(scenario, s, CLEAN), p', made')
  {
    hide Inv, Replayable, Proceed, Nearer;
    p', made' := p, made;
    match s.process
    case Entering(_, _) => EnterCleanly(scenario, s, p, made);
    case Building(_, _, _) => PrepareCleanly(scenario, s, p, made);
    case Recording(_, _, _, _) => StartCleanly(scenario, s, p, made);
    case Sending(_, _, _, _) => made' := SendCleanly(scenario, s, p, made);
    case Unsettled(_, _, _, _) => SettleCleanly(scenario, s, p, made);
    case Settled(_, _, _, _, _) => p', made' := WriteCleanly(scenario, s, p, made);
    case Answered(_, _, _, _) => p', made' := WriteCleanly(scenario, s, p, made);
  }

  /** `more` goes on from `moves` with clean steps alone. */
  predicate ContinuesCleanly(moves: seq<Move>, more: seq<Move>)
  {
    moves <= more && forall i | |moves| <= i < |more| :: more[i] == Next(CLEAN)
  }

  /** Clean steps from a state on track reach the end. */
  lemma {:induction false} Drive(scenario: Scenario, s: State, moves: seq<Move>, p: nat, made: IdTable)
    returns (more: seq<Move>)
    requires Replayable(scenario) && Declared(scenario)
    requires Inv(scenario, Run(scenario, s, moves), p, made) && OnTrack(scenario, Run(scenario, s, moves), p)
    ensures ContinuesCleanly(moves, more) && Run(scenario, s, more).process.Finished?
    decreases Rank(|scenario.events|, Run(scenario, s, moves).process)
  {
    hide Inv, Replayable, Proceed, OnTrack, Rank;
    var r := Run(scenario, s, moves);
    if r.process.Finished? {
      more := moves;
    } else {
      var longer := moves + [Next(CLEAN)];
      var p', made' := CleanStep(scenario, r, p, made);
      assert longer[..|moves|] == moves;
      assert Run(scenario, s, longer) == Proceed(scenario, r, CLEAN);
      more := Drive(scenario, s, longer, p', made');
    }
  }

  // ----- The theorem -----

  /** The event in hand is recorded as ambiguous. */
  ghost predicate Ambiguous(scenario: Scenario, journal: Journal)
  {
    exists event | event in scenario.events :: Stopped(History(journal, event))
  }

  lemma RunAppend(scenario: Scenario, s: State, moves: seq<Move>, move: Move)
    requires Declared(scenario)
    ensures Run(scenario, s, moves + [move]) == Do(scenario, Run(scenario, s, moves), move)
  {
    assert (moves + [move])[..|moves|] == moves;
  }

  /** Preconditions of a run hold in every reachable state whose attempt numbers fit. */
  lemma StillStartable(scenario: Scenario, s: State, p: nat, made: IdTable)
    requires Declared(scenario) && Inv(scenario, s, p, made) && Readable(s.journal)
    ensures Startable(scenario, s.journal)
  {
    hide At, HandOk, ProcessOk, ServerOk, LedgerOk;
    forall event | event in scenario.events ensures SameDigest(scenario, History(s.journal, event)) {
      var i :| 0 <= i < |scenario.events| && scenario.events[i] == event;
      assert HistoryOk(scenario, scenario.events[i], History(s.journal, scenario.events[i]));
    }
  }

  /** A crash and a fault-free `resume` bring every reachable state to the end, unless an event is
      recorded as ambiguous or the event in hand has used up its attempt numbers. */
  lemma ResumeFinishes(scenario: Scenario, s: State, moves: seq<Move>) returns (more: seq<Move>)
    requires Replayable(scenario) && Declared(scenario) && Initial(scenario, s)
    requires forall event | event in scenario.events ::
      |History(Run(scenario, s, moves).journal, event)| < LAST_ATTEMPT
    requires !Ambiguous(scenario, Run(scenario, s, moves).journal)
    ensures ContinuesCleanly(moves + [Crash, Resume], more) && Run(scenario, s, more).process.Finished?
  {
    hide Inv, Initial, Replayable, Proceed, Run, Startable;
    var p, made := Reached(scenario, s, moves);
    var r := Run(scenario, s, moves);
    NamesOnly(scenario, r, p, made);
    RunAppend(scenario, s, moves, Crash);
    p, made := Reached(scenario, s, moves + [Crash]);
    StillStartable(scenario, Run(scenario, s, moves + [Crash]), p, made);
    RunAppend(scenario, s, moves + [Crash], Resume);
    assert moves + [Crash] + [Resume] == moves + [Crash, Resume];
    p, made := Reached(scenario, s, moves + [Crash, Resume]);
    Bounded(scenario, Run(scenario, s, moves + [Crash, Resume]), p, made);
    more := Drive(scenario, s, moves + [Crash, Resume], p, made);
  }

  lemma Bounded(scenario: Scenario, s: State, p: nat, made: IdTable)
    requires Declared(scenario) && Inv(scenario, s, p, made)
    ensures p <= |scenario.events|
  {
  }

  lemma NamesOnly(scenario: Scenario, s: State, p: nat, made: IdTable)
    requires Declared(scenario) && Inv(scenario, s, p, made)
    requires forall event | event in scenario.events :: |History(s.journal, event)| <= LAST_ATTEMPT
    ensures Readable(s.journal)
  {
    hide At, HandOk, ProcessOk, ServerOk, LedgerOk, HistoryOk;
  }

  // ----- The other direction: ambiguity is final -----

  /** With the event in hand stopped, a process can only look at records and leave. */
  lemma StoppedProcess(scenario: Scenario, s: State, p: nat, made: IdTable)
    requires Declared(scenario) && Inv(scenario, s, p, made)
    requires p < |scenario.events| && Stopped(History(s.journal, scenario.events[p]))
    ensures s.process.Down? || s.process.Entering?
  {
    hide At, HandOk, ServerOk, LedgerOk, HistoryOk, Table;
  }

  lemma StoppedStep(scenario: Scenario, s: State, p: nat, made: IdTable, move: Move)
    requires Replayable(scenario) && Declared(scenario) && Inv(scenario, s, p, made)
    requires p < |scenario.events| && Stopped(History(s.journal, scenario.events[p]))
    ensures var next := Do(scenario, s, move);
      next.journal == s.journal && next.fixture == s.fixture && next.sent == s.sent && !next.process.Finished?
  {
    hide Inv, Replayable;
    StoppedProcess(scenario, s, p, made);
    Bounded(scenario, s, p, made);
    if s.process.Entering? { EnteringBounded(scenario, s, p, made); }
  }

  lemma EnteringBounded(scenario: Scenario, s: State, p: nat, made: IdTable)
    requires Declared(scenario) && Inv(scenario, s, p, made) && s.process.Entering?
    ensures s.process.k <= p
  {
    hide At, HandOk, ServerOk, LedgerOk, HistoryOk, Table;
  }

  /** Only the event in hand can be ambiguous. */
  lemma AmbiguousInHand(scenario: Scenario, s: State, p: nat, made: IdTable)
    requires Declared(scenario) && Inv(scenario, s, p, made) && Ambiguous(scenario, s.journal)
    ensures p < |scenario.events| && Stopped(History(s.journal, scenario.events[p]))
  {
    hide At, HandOk, ServerOk, LedgerOk, HistoryOk, Table, ProcessOk, ReplayMachine.History;
    var event :| event in scenario.events && Stopped(History(s.journal, event));
    var i :| 0 <= i < |scenario.events| && scenario.events[i] == event;
    assert i < p ==> Advances(History(s.journal, scenario.events[i]));
  }

  /** Once an event is recorded as ambiguous, no run ever finishes, and nothing more is sent. */
  lemma {:induction false} AmbiguousForever(scenario: Scenario, s: State, moves: seq<Move>, further: seq<Move>)
    requires Replayable(scenario) && Declared(scenario) && Initial(scenario, s)
    requires Ambiguous(scenario, Run(scenario, s, moves).journal)
    ensures Run(scenario, s, moves + further).journal == Run(scenario, s, moves).journal
    ensures Run(scenario, s, moves + further).fixture == Run(scenario, s, moves).fixture
    ensures Run(scenario, s, moves + further).sent == Run(scenario, s, moves).sent
    ensures !Run(scenario, s, moves + further).process.Finished?
    decreases |further|
  {
    hide Inv, Initial, Replayable, Proceed, Do, Run, Ambiguous;
    if further == [] {
      assert moves + further == moves;
      var p, made := Reached(scenario, s, moves);
      AmbiguousInHand(scenario, Run(scenario, s, moves), p, made);
      StoppedProcess(scenario, Run(scenario, s, moves), p, made);
    } else {
      var shorter, last := further[..|further| - 1], further[|further| - 1];
      AmbiguousForever(scenario, s, moves, shorter);
      assert moves + further == moves + shorter + [last];
      RunAppend(scenario, s, moves + shorter, last);
      var p, made := Reached(scenario, s, moves + shorter);
      AmbiguousInHand(scenario, Run(scenario, s, moves + shorter), p, made);
      StoppedStep(scenario, Run(scenario, s, moves + shorter), p, made, last);
    }
  }

  /** A reachable state can still be brought to the end exactly when no event is recorded as
      ambiguous (attempt numbers permitting). */
  lemma FinishableUnlessAmbiguous(scenario: Scenario, s: State, moves: seq<Move>)
    requires Replayable(scenario) && Declared(scenario) && Initial(scenario, s)
    requires forall event | event in scenario.events ::
      |History(Run(scenario, s, moves).journal, event)| < LAST_ATTEMPT
    ensures (exists further: seq<Move> :: Run(scenario, s, moves + further).process.Finished?)
       <==> !Ambiguous(scenario, Run(scenario, s, moves).journal)
  {
    hide Initial, Replayable, Run, Ambiguous;
    if Ambiguous(scenario, Run(scenario, s, moves).journal) {
      forall further: seq<Move> ensures !Run(scenario, s, moves + further).process.Finished? {
        AmbiguousForever(scenario, s, moves, further);
      }
    } else {
      var more := ResumeFinishes(scenario, s, moves);
      assert moves <= moves + [Crash, Resume] <= more;
      assert more == moves + more[|moves|..];
      assert Run(scenario, s, moves + more[|moves|..]).process.Finished?;
    }
  }
}
