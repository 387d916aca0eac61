/** Runs of the step system chosen event by event: delivered cleanly, taken as done without being sent,
    or committed twice because the first reply was lost. They show that every gap the analysis allows
    really occurs. */
module Courses {
  import opened AttemptFiles
  import opened Prelude
  import opened Scenarios
  import opened Fixtures
  import opened Records
  import opened Actions
  import opened Expected
  import opened Simulation
  import opened Recovery
  import opened ReplayMachine
  import opened ReplaySafety
  import opened ReplayTheorems
  import opened Completion
  import opened Deliveries

  // ----- Several steps at once -----

  function Steps(scenario: Scenario, s: State, chances: seq<Chance>): State
    requires Declared(scenario)
    decreases |chances|
  {
    if chances == [] then s else Steps(scenario, Proceed(scenario, s, chances[0]), chances[1..])
  }

  lemma {:induction false} StepsRun(scenario: Scenario, s: State, moves: seq<Move>, chances: seq<Chance>)
    returns (more: seq<Move>)
    requires Declared(scenario)
    ensures moves <= more && Run(scenario, s, more) == Steps(scenario, Run(scenario, s, moves), chances)
    decreases |chances|
  {
    hide Proceed, Run;
    if chances == [] {
      more := moves;
    } else {
      RunAppend(scenario, s, moves, Next(chances[0]));
      more := StepsRun(scenario, s, moves + [Next(chances[0])], chances[1..]);
    }
  }

  /** The mutation commits and its reply is lost. */
  const LOST := Chance(Answer, true, false)

  /** Queries answer and nothing commits. */
  const QUIET := Chance(Answer, false, false)

  /** A completed history of the event: the attempt in hand, written and then replaced. */
  function Recorded(scenario: Scenario, event: Event, history: seq<Attempt>, outcome: IdTable, next: NextAction)
    : seq<Attempt>
  {
    history + [Completed(event.name, |history| + 1, IdentityOf(scenario, event), outcome, next)]
  }

  /** An event may be attempted: the request is known, and the journal takes its records. */
  ghost predicate Attemptable(scenario: Scenario, s: State, k: nat, ids: IdTable, history: seq<Attempt>,
                              request: Request)
    requires Declared(scenario)
  {
    && k < |scenario.events| && Readable(s.journal) && |history| < LAST_ATTEMPT
    && History(s.journal, scenario.events[k]) == history && HistoryOk(scenario, scenario.events[k], history)
    && NextAttempt(history, |history| + 1)
    && Build(scenario, ids, scenario.events[k], s.fixture) == Some(request)
  }

  /** From the built request to the mutation. */
  lemma AttemptSteps(scenario: Scenario, s: State, k: nat, ids: IdTable, history: seq<Attempt>, request: Request)
    requires Declared(scenario) && Attemptable(scenario, s, k, ids, history, request)
    requires s.process == Building(k, ids, |history| + 1)
    ensures var event := scenario.events[k];
      var open := history + [InFlight(event.name, |history| + 1, IdentityOf(scenario, event))];
      && Steps(scenario, s, [CLEAN, CLEAN]) == s.(journal := s.journal[event.name := open],
                                                  process := Sending(k, ids, |history| + 1, request))
      && Steps(scenario, s, [QUIET, QUIET]) == Steps(scenario, s, [CLEAN, CLEAN])
      && Readable(s.journal[event.name := open]) && HistoryOk(scenario, event, open) && IsOpen(open)
  {
    hide Build, HistoryOk;
    var event := scenario.events[k];
    StartKeepsHistory(scenario, event, history, |history| + 1);
    var recording := s.(process := Recording(k, ids, |history| + 1, request));
    assert Proceed(scenario, s, CLEAN) == Proceed(scenario, s, QUIET) == recording;
    TwoSteps(scenario, s, CLEAN, CLEAN);
    TwoSteps(scenario, s, QUIET, QUIET);
  }

  lemma OneStep(scenario: Scenario, s: State, a: Chance)
    requires Declared(scenario)
    ensures Steps(scenario, s, [a]) == Proceed(scenario, s, a)
  {
    hide Proceed;
    assert [a][1..] == [];
  }

  lemma TwoSteps(scenario: Scenario, s: State, a: Chance, b: Chance)
    requires Declared(scenario)
    ensures Steps(scenario, s, [a, b]) == Proceed(scenario, Proceed(scenario, s, a), b)
  {
    hide Proceed;
    assert [a, b][1..] == [b];
    OneStep(scenario, Proceed(scenario, s, a), b);
  }

  /** Writing the verdict, or the ids the reply carried. */
  lemma FinishStep(scenario: Scenario, s: State, k: nat, ids: IdTable, history: seq<Attempt>, outcome: IdTable,
                   next: NextAction, onward: Process)
    requires Declared(scenario) && k < |scenario.events| && Readable(s.journal) && |history| < LAST_ATTEMPT
    requires var event := scenario.events[k];
      var open := history + [InFlight(event.name, |history| + 1, IdentityOf(scenario, event))];
      History(s.journal, event) == open && HistoryOk(scenario, event, open) && IsOpen(open)
    requires next != Reconsider && (next == Advance ==> outcome.Keys == Creates(scenario.events[k]))
    ensures Finish(scenario, s, k, |history| + 1, outcome, next, onward) == s.(
      journal := s.journal[scenario.events[k].name := Recorded(scenario, scenario.events[k], history, outcome, next)],
      process := onward)
  {
    hide HistoryOk, IdentityOf;
    var event := scenario.events[k];
    var open := history + [InFlight(event.name, |history| + 1, IdentityOf(scenario, event))];
    FinishKeepsHistory(scenario, event, open, outcome, next);
    assert open[|history| := Completed(event.name, |history| + 1, IdentityOf(scenario, event), outcome, next)]
        == Recorded(scenario, event, history, outcome, next);
  }

  /** A clean attempt: committed, answered, recorded. */
  lemma CleanAttempt(scenario: Scenario, s: State, k: nat, ids: IdTable, history: seq<Attempt>, request: Request)
    requires Declared(scenario) && Attemptable(scenario, s, k, ids, history, request)
    requires s.process == Building(k, ids, |history| + 1) && Accepts(s.fixture, request)
    requires ResolvedIds(scenario.events[k], s.fixture).Keys == Creates(scenario.events[k])
    ensures var event := scenario.events[k];
      var made := ResolvedIds(event, s.fixture);
      && event.actor in scenario.emails
      && Steps(scenario, Steps(scenario, s, [CLEAN, CLEAN]), [CLEAN, CLEAN]) == State(
           s.journal[event.name := Recorded(scenario, event, history, made, Advance)],
           Commit(s.fixture, scenario.emails[event.actor], request), s.sent + [event.name],
           Entering(k + 1, ids + made))
  {
    hide Build, HistoryOk, Commit, Accepts, IdentityOf, ResolvedIds, Creates, Readable;
    var event := scenario.events[k];
    assert event.actor in Actors(event);
    var made := ResolvedIds(event, s.fixture);
    AttemptSteps(scenario, s, k, ids, history, request);
    var sending := Steps(scenario, s, [CLEAN, CLEAN]);
    TwoSteps(scenario, sending, CLEAN, CLEAN);
    var answered := Proceed(scenario, sending, CLEAN);
    assert answered == State(sending.journal, Commit(s.fixture, scenario.emails[event.actor], request),
                             s.sent + [event.name], Answered(k, ids, |history| + 1, made));
    FinishStep(scenario, answered, k, ids, history, made, Advance, Entering(k + 1, ids + made));
    assert sending.journal[event.name := Recorded(scenario, event, history, made, Advance)]
        == s.journal[event.name := Recorded(scenario, event, history, made, Advance)];
  }

  /** An attempt whose mutation does not reach the server and whose query finds it satisfied. */
  lemma QuietAttempt(scenario: Scenario, s: State, k: nat, ids: IdTable, found: IdTable, request: Request)
    requires Declared(scenario) && Attemptable(scenario, s, k, ids, [], request)
    requires s.process == Building(k, ids, 1) && found.Keys == Creates(scenario.events[k])
    requires Reconcile(scenario, ids, scenario.events[k], s.fixture, Answer) == Some(Verdict(Advance, found))
    ensures var event := scenario.events[k];
      Steps(scenario, Steps(scenario, Steps(scenario, s, [QUIET, QUIET]), [QUIET, QUIET]), [QUIET]) == State(
        s.journal[event.name := Recorded(scenario, event, [], found, Advance)], s.fixture, s.sent,
        Entering(k + 1, ids + found))
  {
    hide Build, HistoryOk, Commit, Accepts, IdentityOf, Reconcile, Creates, Readable;
    var event := scenario.events[k];
    AttemptSteps(scenario, s, k, ids, [], request);
    var sending := Steps(scenario, s, [QUIET, QUIET]);
    TwoSteps(scenario, sending, QUIET, QUIET);
    var settled := Steps(scenario, sending, [QUIET, QUIET]);
    assert settled == sending.(process := Settled(k, ids, 1, true, Verdict(Advance, found)));
    FinishStep(scenario, settled, k, ids, [], found, Advance, Entering(k + 1, ids + found));
    assert Steps(scenario, settled, [QUIET]) == Proceed(scenario, settled, QUIET);
    assert sending.journal[event.name := Recorded(scenario, event, [], found, Advance)]
        == s.journal[event.name := Recorded(scenario, event, [], found, Advance)];
  }

  /** A first attempt whose commit loses its reply and whose query does not find it satisfied. */
  lemma MisreadAttempt(scenario: Scenario, s: State, k: nat, ids: IdTable, request: Request)
    requires Declared(scenario) && Attemptable(scenario, s, k, ids, [], request)
    requires s.process == Building(k, ids, 1) && Accepts(s.fixture, request)
    requires scenario.events[k].actor in scenario.emails
    requires var event := scenario.events[k];
      Reconcile(scenario, ids, event, Commit(s.fixture, scenario.emails[event.actor], request), Answer)
      == Some(Verdict(Retry, map[]))
    ensures var event := scenario.events[k];
      Steps(scenario, Steps(scenario, Steps(scenario, s, [CLEAN, CLEAN]), [LOST, CLEAN]), [CLEAN]) == State(
        s.journal[event.name := Recorded(scenario, event, [], map[], Retry)],
        Commit(s.fixture, scenario.emails[event.actor], request), s.sent + [event.name], Down)
  {
    hide Build, HistoryOk, Commit, Accepts, IdentityOf, Reconcile, Creates, Readable;
    var event := scenario.events[k];
    AttemptSteps(scenario, s, k, ids, [], request);
    var sending := Steps(scenario, s, [CLEAN, CLEAN]);
    TwoSteps(scenario, sending, LOST, CLEAN);
    var settled := Steps(scenario, sending, [LOST, CLEAN]);
    assert settled == State(sending.journal, Commit(s.fixture, scenario.emails[event.actor], request),
                            s.sent + [event.name], Settled(k, ids, 1, true, Verdict(Retry, map[])));
    FinishStep(scenario, settled, k, ids, [], map[], Retry, Down);
    assert Steps(scenario, settled, [CLEAN]) == Proceed(scenario, settled, CLEAN);
    assert sending.journal[event.name := Recorded(scenario, event, [], map[], Retry)]
        == s.journal[event.name := Recorded(scenario, event, [], map[], Retry)];
  }

  // ----- What one course of events leaves apart -----

  /** Whether the flag event finds its own request pending when every earlier one was left to stand. */
  predicate Adopts(scenario: Scenario, k: nat)
    requires k < |scenario.events|
  {
    var a := scenario.events[k].action;
    && a.BugFlag? && a.requestee.Some? && a.requestee.value in scenario.emails
    && MayHold(scenario, k, a.bug, a.flagType, scenario.emails[a.requestee.value])
  }

  /** The gaps after event `k`: adopted if it can be, committed twice if it is the one-sided update
      `twice`, committed once otherwise. */
  function CourseStep(gaps: Gaps, scenario: Scenario, twice: nat, k: nat): Gaps
    requires k < |scenario.events|
    requires Actors(scenario.events[k]) <= scenario.emails.Keys && Applicable(Fold(scenario, k), scenario.events[k])
  {
    var event, exp := scenario.events[k], Fold(scenario, k);
    if Adopts(scenario, k) then Unsent(gaps, scenario, exp, event)
    else if k == twice && OneSided(event) && Applicable(Fold(scenario, k + 1), event) then
      After(After(gaps, scenario, exp, event), scenario, Fold(scenario, k + 1), event)
    else After(gaps, scenario, exp, event)
  }

  /** The gaps after `k` such events. The guard never fails for a loaded scenario. */
  function Coursed(scenario: Scenario, twice: nat, k: nat): Gaps
    requires k <= |scenario.events|
  {
    if k == 0 then NoGaps
    else
      var before := Coursed(scenario, twice, k - 1);
      if Actors(scenario.events[k - 1]) <= scenario.emails.Keys
         && Applicable(Fold(scenario, k - 1), scenario.events[k - 1])
      then CourseStep(before, scenario, twice, k - 1)
      else before
  }

  /** Exactly the logins the analysis lists are missing, and which self-edges have slipped is known. */
  ghost predicate Exact(gaps: Gaps, missing: set<(string, string)>)
  {
    gaps.mayMiss == gaps.mustMiss == missing && gaps.maySlip == gaps.mustSlip
  }

  lemma AfterExactly(gaps: Gaps, scenario: Scenario, k: nat, exp: Expectation)
    requires k < |scenario.events| && !Adopts(scenario, k)
    requires ShapeOk(scenario.events[k]) && Actors(scenario.events[k]) <= scenario.emails.Keys
    requires Applicable(exp, scenario.events[k]) && gaps.mayMiss == gaps.mustMiss && gaps.maySlip == gaps.mustSlip
    requires || gaps.mayMiss == Missing(scenario, k)
             || (OneSided(scenario.events[k]) && gaps.mayMiss == Missing(scenario, k + 1))
    ensures Exact(After(gaps, scenario, exp, scenario.events[k]), Missing(scenario, k + 1))
  {
    hide Fold;
    var event := scenario.events[k];
    assert event.action.BugFlag? && event.action.requestee.Some? ==> event.action.requestee.value in Actors(event);
  }

  lemma UnsentExactly(gaps: Gaps, scenario: Scenario, k: nat)
    requires k < |scenario.events| && Adopts(scenario, k) && ShapeOk(scenario.events[k])
    requires Actors(scenario.events[k]) <= scenario.emails.Keys && Applicable(Fold(scenario, k), scenario.events[k])
    requires Exact(gaps, Missing(scenario, k))
    ensures Exact(Unsent(gaps, scenario, Fold(scenario, k), scenario.events[k]), Missing(scenario, k + 1))
  {
    hide Fold;
  }

  lemma {:induction false} CourseIsExact(scenario: Scenario, twice: nat, k: nat)
    requires k <= |scenario.events| && WellFormed(scenario.emails, scenario.events)
    ensures Exact(Coursed(scenario, twice, k), Missing(scenario, k))
  {
    hide Fold, After, Actors, Applicable, MissingAfter, Unsent;
    if k > 0 {
      CourseIsExact(scenario, twice, k - 1);
      FoldNext(scenario, k - 1);
      var gaps, event := Coursed(scenario, twice, k - 1), scenario.events[k - 1];
      if Adopts(scenario, k - 1) {
        UnsentExactly(gaps, scenario, k - 1);
      } else {
        AfterExactly(gaps, scenario, k - 1, Fold(scenario, k - 1));
        if OneSided(event) && Applicable(Fold(scenario, k), event) {
          AfterExactly(After(gaps, scenario, Fold(scenario, k - 1), event), scenario, k - 1, Fold(scenario, k));
        }
      }
    }
  }

  /** Whoever is missing is expected. */
  lemma {:induction false} MissingIsExpected(scenario: Scenario, k: nat, bug: string, login: string)
    requires k <= |scenario.events| && WellFormed(scenario.emails, scenario.events)
    requires (bug, login) in Missing(scenario, k)
    ensures bug in Fold(scenario, k).bugs && login in Fold(scenario, k).bugs[bug].cc
  {
    hide Fold, FoldStep, Actors, Applicable;
    FoldNext(scenario, k - 1);
    if (bug, login) in Missing(scenario, k - 1) { MissingIsExpected(scenario, k - 1, bug, login); }
    MissingKept(scenario, k - 1, bug, login);
  }

  lemma MissingKept(scenario: Scenario, k: nat, bug: string, login: string)
    requires k < |scenario.events| && Actors(scenario.events[k]) <= scenario.emails.Keys
    requires Applicable(Fold(scenario, k), scenario.events[k]) && ShapeOk(scenario.events[k])
    requires (bug, login) in MissingAfter(Missing(scenario, k), scenario, k)
    requires (bug, login) in Missing(scenario, k) ==>
      bug in Fold(scenario, k).bugs && login in Fold(scenario, k).bugs[bug].cc
    ensures var next := FoldStep(scenario, Fold(scenario, k), scenario.events[k]);
      bug in next.bugs && login in next.bugs[bug].cc
  {
    hide Fold;
    var event, exp := scenario.events[k], Fold(scenario, k);
    match event.action
    case BugCreate(b, _, _, _, _, _, _, dependsOn, blocks) =>
      OptionalLinksFrame(exp.bugs[b := NewBug(scenario, event)], b, Some(dependsOn), Some(blocks));
    case BugUpdate(b, _, _, _, _, _, dependsOn, blocks, _) =>
      OptionalLinksFrame(exp.bugs[b := UpdatedNames(scenario, event, exp.bugs[b])], b, dependsOn, blocks);
    case _ =>
  }

  // ----- Which self-edges some course leaves slipped -----

  /** A course that has not come to its twice-committed event is like any other. */
  lemma {:induction false} CoursesBegin(scenario: Scenario, one: nat, other: nat, k: nat)
    requires k <= |scenario.events| && k <= one && k <= other
    ensures Coursed(scenario, one, k) == Coursed(scenario, other, k)
  {
    if k > 0 { CoursesBegin(scenario, one, other, k - 1); }
  }

  /** Committing a one-sided update a second time turns the self-edge round again. */
  lemma SecondCommitTurns(gaps: Gaps, scenario: Scenario, k: nat)
    requires k < |scenario.events| && WellFormed(scenario.emails, scenario.events) && OneSided(scenario.events[k])
    requires gaps.maySlip == gaps.mustSlip
    requires Actors(scenario.events[k]) <= scenario.emails.Keys
    requires Applicable(Fold(scenario, k), scenario.events[k]) && Applicable(Fold(scenario, k + 1), scenario.events[k])
    ensures var event := scenario.events[k];
      var once := After(gaps, scenario, Fold(scenario, k), event);
      (event.action.bug in once.mustSlip)
      != (event.action.bug in After(once, scenario, Fold(scenario, k + 1), event).mustSlip)
  {
    hide Fold, FoldStep, After, Covers, AttachmentsConsistent;
    FoldNext(scenario, k);
    FoldSound(scenario, k + 1);
    SelfFoldedBy(scenario, Fold(scenario, k), scenario.events[k]);
    TurnsBack(gaps, Fold(scenario, k), Fold(scenario, k + 1), scenario, scenario.events[k]);
  }

  lemma TurnsBack(gaps: Gaps, before: Expectation, after: Expectation, scenario: Scenario, event: Event)
    requires OneSided(event) && gaps.maySlip == gaps.mustSlip && Actors(event) <= scenario.emails.Keys
    requires Applicable(before, event) && Applicable(after, event)
    requires var a := event.action; a.bug in after.bugs[a.bug].dependsOn <==> a.bug in a.newBlocks.value
    ensures var once := After(gaps, scenario, before, event);
      (event.action.bug in once.mustSlip) != (event.action.bug in After(once, scenario, after, event).mustSlip)
  {
  }

  lemma SelfFoldedBy(scenario: Scenario, exp: Expectation, event: Event)
    requires event.action.BugUpdate? && Actors(event) <= scenario.emails.Keys && Applicable(exp, event)
    requires event.action.newBlocks.Some? && EdgesConsistent(FoldStep(scenario, exp, event).bugs)
    ensures var a := event.action;
      a.bug in FoldStep(scenario, exp, event).bugs
      && (a.bug in FoldStep(scenario, exp, event).bugs[a.bug].dependsOn <==> a.bug in a.newBlocks.value)
  {
  }

  /** An event that declares none of the bug's edges leaves its self-edge as it was. */
  lemma SlipStays(gaps: Gaps, scenario: Scenario, twice: nat, k: nat, bug: string)
    requires k < |scenario.events| && gaps.maySlip == gaps.mustSlip
    requires Actors(scenario.events[k]) <= scenario.emails.Keys && Applicable(Fold(scenario, k), scenario.events[k])
    requires var a := scenario.events[k].action;
      && !(a.BugCreate? && a.bug == bug)
      && !(a.BugUpdate? && a.bug == bug && (a.newDependsOn.Some? || a.newBlocks.Some?))
    ensures bug in CourseStep(gaps, scenario, twice, k).mustSlip <==> bug in gaps.mustSlip
  {
    hide Fold;
  }

  /** Where the analysis allows a slip, two courses disagree on it: commit the last one-sided update
      once or twice. */
  lemma {:induction false} SlipIsAChoice(scenario: Scenario, k: nat, bug: string, once: nat) returns (twice: nat)
    requires k <= |scenario.events| && k <= once && WellFormed(scenario.emails, scenario.events)
    requires bug in Loose(scenario.events, k)
    ensures twice < k
    ensures (bug in Coursed(scenario, once, k).mustSlip) != (bug in Coursed(scenario, twice, k).mustSlip)
  {
    hide Coursed, WellFormed;
    if OneSided(scenario.events[k - 1]) && scenario.events[k - 1].action.bug == bug {
      twice := k - 1;
      SlipChosen(scenario, k - 1, once);
    } else {
      LooseBefore(scenario.events, k, bug);
      twice := SlipIsAChoice(scenario, k - 1, bug, once);
      SlipCarries(scenario, once, k - 1, bug);
      SlipCarries(scenario, twice, k - 1, bug);
    }
  }

  lemma SlipChosen(scenario: Scenario, k: nat, once: nat)
    requires k < |scenario.events| && k < once && WellFormed(scenario.emails, scenario.events)
    requires OneSided(scenario.events[k])
    ensures var bug := scenario.events[k].action.bug;
      (bug in Coursed(scenario, once, k + 1).mustSlip) != (bug in Coursed(scenario, k, k + 1).mustSlip)
  {
    hide Fold, After, Actors, Applicable, CourseStep, OneSided;
    FoldNext(scenario, k);
    CourseIsExact(scenario, once, k);
    CoursesBegin(scenario, once, k, k);
    TurnsTwice(Coursed(scenario, once, k), scenario, once, k);
  }

  lemma SlipCarries(scenario: Scenario, twice: nat, k: nat, bug: string)
    requires k < |scenario.events| && WellFormed(scenario.emails, scenario.events)
    requires var a := scenario.events[k].action;
      && !(a.BugCreate? && a.bug == bug)
      && !(a.BugUpdate? && a.bug == bug && (a.newDependsOn.Some? || a.newBlocks.Some?))
    ensures bug in Coursed(scenario, twice, k + 1).mustSlip <==> bug in Coursed(scenario, twice, k).mustSlip
  {
    hide Fold, After, Actors, Applicable, CourseStep, OneSided;
    FoldNext(scenario, k);
    CourseIsExact(scenario, twice, k);
    SlipStays(Coursed(scenario, twice, k), scenario, twice, k, bug);
  }

  lemma LooseBefore(events: seq<Event>, k: nat, bug: string)
    requires 0 < k <= |events| && bug in Loose(events, k)
    requires !(OneSided(events[k - 1]) && events[k - 1].action.bug == bug)
    ensures bug in Loose(events, k - 1)
    ensures var a := events[k - 1].action;
      && !(a.BugCreate? && a.bug == bug)
      && !(a.BugUpdate? && a.bug == bug && (a.newDependsOn.Some? || a.newBlocks.Some?))
  {
  }

  lemma TurnsTwice(gaps: Gaps, scenario: Scenario, once: nat, k: nat)
    requires k < |scenario.events| && k < once && WellFormed(scenario.emails, scenario.events)
    requires OneSided(scenario.events[k]) && gaps.maySlip == gaps.mustSlip
    requires Actors(scenario.events[k]) <= scenario.emails.Keys && Applicable(Fold(scenario, k), scenario.events[k])
    ensures var bug := scenario.events[k].action.bug;
      (bug in CourseStep(gaps, scenario, once, k).mustSlip) != (bug in CourseStep(gaps, scenario, k, k).mustSlip)
  {
    hide Fold, After;
    FoldNext(scenario, k);
    StillApplies(scenario, Fold(scenario, k), scenario.events[k]);
    SecondCommitTurns(gaps, scenario, k);
  }

  lemma StillApplies(scenario: Scenario, exp: Expectation, event: Event)
    requires event.action.BugUpdate? && Actors(event) <= scenario.emails.Keys && Applicable(exp, event)
    ensures Applicable(FoldStep(scenario, exp, event), event)
  {
  }

  // ----- The machine takes each course -----

  /** The flags that were asked for and left to stand are all still pending. */
  ghost predicate Held(scenario: Scenario, k: nat, ids: IdTable, bugs: map<int, Bug>)
    requires k <= |scenario.events|
  {
    forall bug, flagType, login | MayHold(scenario, k, bug, flagType, login) ::
      Stands(ids, bugs, bug, flagType, login)
  }

  ghost predicate Stands(ids: IdTable, bugs: map<int, Bug>, bug: string, flagType: string, login: string)
  {
    BugRef(bug) in ids && ids[BugRef(bug)] in bugs ==>
      && flagType in bugs[ids[BugRef(bug)]].flags
      && bugs[ids[BugRef(bug)]].flags[flagType] == Flag('?', Some(login))
  }

  /** The run is about to take event `k` for the first time, with these gaps. */
  ghost predicate Arrived(gaps: Gaps, scenario: Scenario, s: State, k: nat)
    requires k <= |scenario.events|
  {
    && s.process.Entering? && s.process.k == k && Readable(s.journal)
    && (k < |scenario.events| ==> History(s.journal, scenario.events[k]) == [])
    && Agrees(gaps, scenario, s.process.ids, Fold(scenario, k), s.fixture)
    && Held(scenario, k, s.process.ids, s.fixture.bugs)
  }

  /** A process that enters an event without records is at the event in hand. */
  lemma EntersNext(scenario: Scenario, s: State, p: nat, made: IdTable)
    requires Declared(scenario) && Inv(scenario, s, p, made)
    requires s.process.Entering? && s.process.k < |scenario.events|
    requires History(s.journal, scenario.events[s.process.k]) == []
    ensures s.process.k == p && s.process.ids == Table(scenario, s.journal, p)
    ensures DurableOk(scenario, s, p, made) && At(scenario, p, s.process.ids, s.fixture)
  {
    hide At, HandOk, HistoryOk, LedgerOk, Table;
    assert forall i | 0 <= i < p :: Advances(History(s.journal, scenario.events[i]));
  }

  /** On arrival the event can be attempted, and nothing has been committed. */
  lemma ArrivalAttempts(scenario: Scenario, s: State, p: nat, made: IdTable) returns (request: Request)
    requires Replayable(scenario) && Declared(scenario) && Inv(scenario, s, p, made)
    requires s.process.Entering? && s.process.k < |scenario.events| && Readable(s.journal)
    requires History(s.journal, scenario.events[s.process.k]) == []
    ensures s.process.k == p && At(scenario, p, s.process.ids, s.fixture) && JournalOk(scenario, s.journal, p)
    ensures Attemptable(scenario, s, p, s.process.ids, [], request) && Accepts(s.fixture, request)
    ensures Steps(scenario, s, [CLEAN]) == Steps(scenario, s, [QUIET]) == s.(process := Building(p, s.process.ids, 1))
  {
    hide At, HandOk, HistoryOk, LedgerOk, Table, ServerOk, Inv, Replayable, JournalOk, Build, Accepts, ReadsAbsent,
      ProcessOk, Commits, Readable;
    EntersNext(scenario, s, p, made);
    AbsentBeforeCommit(scenario, s, p, made);
    Resolves(scenario, p);
    BuildsBefore(scenario, p, s.process.ids, s.fixture);
    HistoryAt(scenario, s.journal, p, p);
    request := Build(scenario, s.process.ids, scenario.events[p], s.fixture).value;
    OneStep(scenario, s, CLEAN);
    OneStep(scenario, s, QUIET);
  }

  /** The next event has no records yet once this one's history has been written. */
  lemma NextIsFresh(scenario: Scenario, journal: Journal, k: nat, history: seq<Attempt>)
    requires Replayable(scenario) && k < |scenario.events| && JournalOk(scenario, journal, k) && Readable(journal)
    requires |history| <= LAST_ATTEMPT
    ensures Readable(journal[scenario.events[k].name := history])
    ensures k + 1 < |scenario.events| ==>
      History(journal[scenario.events[k].name := history], scenario.events[k + 1]) == []
  {
    hide JournalOk, Replayable, ReplayMachine.History;
    if k + 1 < |scenario.events| { WriteKeepsNext(scenario, journal, k, history); }
  }

  // ----- Flags left to stand -----

  lemma {:induction false} HeldWasCreated(scenario: Scenario, k: nat, bug: string, flagType: string, login: string)
    requires k <= |scenario.events| && WellFormed(scenario.emails, scenario.events)
    requires MayHold(scenario, k, bug, flagType, login)
    ensures BugRef(bug) in CreatedBefore(scenario.events, k)
  {
    var a := scenario.events[k - 1].action;
    if a.BugFlag? && a.bug == bug {
      assert EventResolves(scenario.emails, scenario.events, k - 1);
      assert BugRef(bug) in Uses(scenario.events[k - 1]);
    } else {
      HeldWasCreated(scenario, k - 1, bug, flagType, login);
    }
  }

  /** The flag event's own request already stands. */
  predicate Pending(scenario: Scenario, ids: IdTable, event: Event, fixture: Fixture)
    requires Actors(event) <= scenario.emails.Keys
  {
    && event.action.BugFlag? && BugRef(event.action.bug) in ids && ids[BugRef(event.action.bug)] in fixture.bugs
    && FlagMatches(fixture.bugs[ids[BugRef(event.action.bug)]].flags, event.action.flagType, event.action.status,
                   RequesteeEmail(scenario, event))
  }

  /** Unless the event asks for the flag itself, whatever it leaves standing stood before. */
  lemma HeldBefore(scenario: Scenario, k: nat, bug: string, flagType: string, login: string)
    requires k < |scenario.events| && Actors(scenario.events[k]) <= scenario.emails.Keys
    requires MayHold(scenario, k + 1, bug, flagType, login)
    ensures var event := scenario.events[k];
      if event.action.BugFlag? && event.action.bug == bug && event.action.flagType == flagType
         && event.action.requestee.Some?
      then RequesteeEmail(scenario, event) == Some(login)
      else
        && MayHold(scenario, k, bug, flagType, login)
        && (event.action.BugFlag? && event.action.bug == bug && event.action.flagType == flagType ==>
              event.action.status == '?')
  {
  }

  /** A committed request, other than a flag already satisfied, leaves the others standing. */
  lemma HeldAfterCommit(scenario: Scenario, k: nat, ids: IdTable, fixture: Fixture)
    requires Replayable(scenario) && k < |scenario.events| && At(scenario, k, ids, fixture)
    requires Held(scenario, k, ids, fixture.bugs) && EventResolves(scenario.emails, scenario.events, k)
    requires Build(scenario, ids, scenario.events[k], fixture).Some?
    requires Accepts(fixture, Build(scenario, ids, scenario.events[k], fixture).value)
    requires !Pending(scenario, ids, scenario.events[k], fixture)
    ensures var event := scenario.events[k];
      Held(scenario, k + 1, ids + ResolvedIds(event, fixture),
           Commit(fixture, scenario.emails[event.actor], Build(scenario, ids, event, fixture).value).bugs)
  {
    hide Build, Accepts, Commit, FlagsAt, AliasesAt, Fold, WellFormed, AllSupported, DistinctAliases, CreatedBefore,
      Pending, FlagsMoved, BugsAgree, AttachmentsAgree, EdgesAgree, SelvesAgree, MayHold, ResolvedIds;
    var event := scenario.events[k];
    CommittedFlags(scenario, ids, event, fixture, scenario.emails[event.actor]);
    IdsAreCreated(scenario, k, ids, fixture);
    var ids' := ids + ResolvedIds(event, fixture);
    var next := Commit(fixture, scenario.emails[event.actor], Build(scenario, ids, event, fixture).value);
    forall r | r in ids && r.BugRef? ensures ids[r] in fixture.bugs { assert r.name in Fold(scenario, k).bugs; }
    forall bug, flagType, login | MayHold(scenario, k + 1, bug, flagType, login)
      ensures Stands(ids', next.bugs, bug, flagType, login)
    {
      if event.action.BugFlag? && event.action.bug == bug {
        HeldOnBug(scenario, k, ids, fixture, next, flagType, login);
      } else {
        HeldElsewhere(scenario, k, ids, fixture, next, bug, flagType, login);
      }
    }
  }

  lemma HeldElsewhere(scenario: Scenario, k: nat, ids: IdTable, fixture: Fixture, next: Fixture, bug: string,
                      flagType: string, login: string)
    requires k < |scenario.events| && EventResolves(scenario.emails, scenario.events, k)
    requires WellFormed(scenario.emails, scenario.events) && ids.Keys == CreatedBefore(scenario.events, k)
    requires Located(ids, Fold(scenario, k), fixture) && Held(scenario, k, ids, fixture.bugs)
    requires FlagsMoved(scenario, ids, scenario.events[k], fixture, next)
    requires MayHold(scenario, k + 1, bug, flagType, login)
    requires !(scenario.events[k].action.BugFlag? && scenario.events[k].action.bug == bug)
    ensures Stands(ids + ResolvedIds(scenario.events[k], fixture), next.bugs, bug, flagType, login)
  {
    hide Fold, WellFormed, CreatedBefore, MayHold, AttachmentsLocated;
    var event := scenario.events[k];
    HeldBefore(scenario, k, bug, flagType, login);
    HeldWasCreated(scenario, k, bug, flagType, login);
    ResolvedCreates(event, fixture);
    assert BugRef(bug) !in ResolvedIds(event, fixture);
    assert bug in Fold(scenario, k).bugs.Keys;
    assert ids[BugRef(bug)] in fixture.bugs.Keys;
    assert 0 < ids[BugRef(bug)] < fixture.nextBug;
    if event.action.BugFlag? { assert Apart(ids, BugRef(bug), BugRef(event.action.bug)); }
    assert next.bugs[ids[BugRef(bug)]].flags == fixture.bugs[ids[BugRef(bug)]].flags;
  }

  lemma HeldOnBug(scenario: Scenario, k: nat, ids: IdTable, fixture: Fixture, next: Fixture, flagType: string,
                  login: string)
    requires k < |scenario.events| && EventResolves(scenario.emails, scenario.events, k)
    requires scenario.events[k].action.BugFlag?
    requires Held(scenario, k, ids, fixture.bugs) && !Pending(scenario, ids, scenario.events[k], fixture)
    requires FlagsMoved(scenario, ids, scenario.events[k], fixture, next)
    requires MayHold(scenario, k + 1, scenario.events[k].action.bug, flagType, login)
    requires forall r | r in ids && r.BugRef? :: ids[r] in fixture.bugs
    ensures Stands(ids + ResolvedIds(scenario.events[k], fixture), next.bugs, scenario.events[k].action.bug, flagType,
                   login)
  {
    hide CreatedBefore, MayHold;
    var event := scenario.events[k];
    HeldBefore(scenario, k, event.action.bug, flagType, login);
    if BugRef(event.action.bug) in ids {
      var id := ids[BugRef(event.action.bug)];
      assert id in fixture.bugs;
      assert MayHold(scenario, k, event.action.bug, flagType, login) ==>
          Stands(ids, fixture.bugs, event.action.bug, flagType, login);
      assert next.bugs[id].flags == ApplyFlag(fixture.bugs[id], event.action.flagType, event.action.status,
                                              RequesteeEmail(scenario, event)).flags;
    }
  }

  /** A flag taken as satisfied was the one that stands. */
  lemma HeldUnsent(scenario: Scenario, k: nat, ids: IdTable, fixture: Fixture)
    requires k < |scenario.events| && EventResolves(scenario.emails, scenario.events, k)
    requires Held(scenario, k, ids, fixture.bugs) && Pending(scenario, ids, scenario.events[k], fixture)
    ensures Held(scenario, k + 1, ids, fixture.bugs)
  {
    hide CreatedBefore, MayHold;
    forall bug, flagType, login | MayHold(scenario, k + 1, bug, flagType, login)
      ensures Stands(ids, fixture.bugs, bug, flagType, login)
    {
      HeldBefore(scenario, k, bug, flagType, login);
    }
  }

  // ----- One event of a course -----

  /** Entered, attempted, committed, answered and recorded. */
  function AfterDelivery(scenario: Scenario, s: State): State
    requires Declared(scenario)
  {
    Steps(scenario, Steps(scenario, Steps(scenario, s, [CLEAN]), [CLEAN, CLEAN]), [CLEAN, CLEAN])
  }

  /** Delivered cleanly. */
  lemma CleanArrival(gaps: Gaps, scenario: Scenario, s: State, p: nat, made: IdTable, k: nat)
    requires Replayable(scenario) && Declared(scenario) && Inv(scenario, s, p, made)
    requires k < |scenario.events| && Arrived(gaps, scenario, s, k)
    requires Actors(scenario.events[k]) <= scenario.emails.Keys && Applicable(Fold(scenario, k), scenario.events[k])
    requires !Pending(scenario, s.process.ids, scenario.events[k], s.fixture)
    ensures Arrived(After(gaps, scenario, Fold(scenario, k), scenario.events[k]), scenario,
                    AfterDelivery(scenario, s), k + 1)
  {
    hide Inv, Replayable, Agrees, Held, After, Fold, Pending, At, JournalOk, Accepts, Commit, ResolvedIds, Readable,
      ReplayMachine.History, Build, Actors, Applicable, Creates, Proceed, IdentityOf, HistoryOk;
    var ids, event := s.process.ids, scenario.events[k];
    var request := ArrivalAttempts(scenario, s, p, made);
    var building := s.(process := Building(k, ids, 1));
    ResolvedCreates(event, s.fixture);
    CleanAttempt(scenario, building, k, ids, [], request);
    NextIsFresh(scenario, s.journal, k, Recorded(scenario, event, [], ResolvedIds(event, s.fixture), Advance));
    Resolves(scenario, k);
    AgreesAfterCommit(gaps, scenario, k, ids, s.fixture);
    HeldAfterCommit(scenario, k, ids, s.fixture);
  }

  /** Taken as done without being sent. */
  lemma QuietArrival(gaps: Gaps, scenario: Scenario, s: State, p: nat, made: IdTable, k: nat)
    requires Replayable(scenario) && Declared(scenario) && Inv(scenario, s, p, made)
    requires k < |scenario.events| && Arrived(gaps, scenario, s, k)
    requires Actors(scenario.events[k]) <= scenario.emails.Keys && Applicable(Fold(scenario, k), scenario.events[k])
    requires Pending(scenario, s.process.ids, scenario.events[k], s.fixture)
    ensures Arrived(Unsent(gaps, scenario, Fold(scenario, k), scenario.events[k]), scenario,
                    Steps(scenario, Steps(scenario, Steps(scenario, Steps(scenario, s, [QUIET]), [QUIET, QUIET]),
                                          [QUIET, QUIET]), [QUIET]), k + 1)
  {
    hide Inv, Replayable, Agrees, Held, Unsent, Fold, At, JournalOk, Accepts, Commit, Readable, FlagMatches,
      ReplayMachine.History, Build, Actors, Proceed, IdentityOf, HistoryOk, Reconcile;
    var ids, event := s.process.ids, scenario.events[k];
    var request := ArrivalAttempts(scenario, s, p, made);
    var building := s.(process := Building(k, ids, 1));
    PendingFlag(scenario, ids, event, s.fixture);
    QuietAttempt(scenario, building, k, ids, map[], request);
    assert ids + map[] == ids;
    NextIsFresh(scenario, s.journal, k, Recorded(scenario, event, [], map[], Advance));
    Resolves(scenario, k);
    AgreesUnsent(gaps, scenario, k, ids, s.fixture);
    HeldUnsent(scenario, k, ids, s.fixture);
  }

  lemma PendingFlag(scenario: Scenario, ids: IdTable, event: Event, fixture: Fixture)
    requires Actors(event) <= scenario.emails.Keys && Pending(scenario, ids, event, fixture)
    ensures Reconcile(scenario, ids, event, fixture, Answer) == Some(Verdict(Advance, map[]))
    ensures Creates(event) == {}
  {
  }

  /** With every earlier request left to stand, a flag finds its own pending exactly where the analysis
      says it can. */
  lemma AdoptsWhenPending(scenario: Scenario, k: nat, ids: IdTable, fixture: Fixture)
    requires Replayable(scenario) && k < |scenario.events| && At(scenario, k, ids, fixture)
    requires Held(scenario, k, ids, fixture.bugs) && EventResolves(scenario.emails, scenario.events, k)
    requires scenario.events[k].action.BugFlag?
    requires BugRef(scenario.events[k].action.bug) in ids && ids[BugRef(scenario.events[k].action.bug)] in fixture.bugs
    ensures Adopts(scenario, k) ==> Pending(scenario, ids, scenario.events[k], fixture)
    ensures Pending(scenario, ids, scenario.events[k], fixture) ==>
      Adopts(scenario, k) || scenario.events[k].action.requestee.None?
  {
    hide Agrees, AliasesAt, Fold, CreatedBefore, WellFormed, AllSupported, DistinctAliases, MayHold;
    var event := scenario.events[k];
    var ref := BugRef(event.action.bug);
    assert FlagsExplained(scenario, k, ref.name, fixture.bugs[ids[ref]].flags);
    assert event.action.requestee.Some? ==> event.action.requestee.value in Actors(event);
    if Adopts(scenario, k) {
      assert Stands(ids, fixture.bugs, event.action.bug, event.action.flagType,
                    scenario.emails[event.action.requestee.value]);
    }
  }

  /** A one-sided update never reads back as declared. */
  lemma OneSidedNeverMatches(gaps: Gaps, scenario: Scenario, ids: IdTable, exp: Expectation, event: Event,
                             fixture: Fixture)
    requires OneSided(event) && Actors(event) <= scenario.emails.Keys && Uses(event) <= ids.Keys
    requires Agrees(gaps, scenario, ids, exp, fixture) && event.action.bug in exp.bugs
    ensures Reconcile(scenario, ids, event, fixture, Answer) == Some(Verdict(Retry, map[]))
  {
    hide BugsAgree, AttachmentsAgree, EdgesAgree, BugsLocated, AttachmentsLocated;
    var a := event.action;
    assert BugRef(a.bug) in Uses(event);
    assert SelfAgrees(gaps, ids, exp.bugs, fixture.bugs, a.bug);
    if OptionalBugs(ids, a.newDependsOn).Some? && OptionalBugs(ids, a.newBlocks).Some? {
      Resolved(ids, a.bug, a.newDependsOn.value);
      Resolved(ids, a.bug, a.newBlocks.value);
      OneSideDiffers(ids[BugRef(a.bug)], ResolveBugs(ids, a.newDependsOn.value).value,
                     ResolveBugs(ids, a.newBlocks.value).value, fixture.bugs[ids[BugRef(a.bug)]]);
    }
  }

  lemma OneSideDiffers(id: int, dependsOn: seq<int>, blocks: seq<int>, bug: Bug)
    requires (id in dependsOn) != (id in blocks) && (id in bug.dependsOn <==> id in bug.blocks)
    ensures !SameMembers(dependsOn, bug.dependsOn) || !SameMembers(blocks, bug.blocks)
  {
    assert id in dependsOn <==> id in Elements(dependsOn);
    assert id in blocks <==> id in Elements(blocks);
    assert id in bug.dependsOn <==> id in Elements(bug.dependsOn);
    assert id in bug.blocks <==> id in Elements(bug.blocks);
  }

  /** An update leaves flags standing. */
  lemma HeldAfterUpdate(scenario: Scenario, k: nat, ids: IdTable, event: Event, fixture: Fixture, next: Fixture)
    requires k <= |scenario.events| && Held(scenario, k, ids, fixture.bugs)
    requires event.action.BugUpdate? && Actors(event) <= scenario.emails.Keys
    requires FlagsMoved(scenario, ids, event, fixture, next)
    requires forall r | r in ids && r.BugRef? :: ids[r] in fixture.bugs
    ensures Held(scenario, k, ids, next.bugs)
  {
    forall bug, flagType, login | MayHold(scenario, k, bug, flagType, login)
      ensures Stands(ids, next.bugs, bug, flagType, login)
    {
      assert Stands(ids, fixture.bugs, bug, flagType, login);
      if BugRef(bug) in ids {
        assert BugRef(bug).BugRef?;
        FlagsKept(scenario, ids, event, fixture, next, ids[BugRef(bug)]);
      }
    }
  }

  lemma FlagsKept(scenario: Scenario, ids: IdTable, event: Event, fixture: Fixture, next: Fixture, id: int)
    requires event.action.BugUpdate? && Actors(event) <= scenario.emails.Keys
    requires FlagsMoved(scenario, ids, event, fixture, next) && id in fixture.bugs
    ensures id in next.bugs && next.bugs[id].flags == fixture.bugs[id].flags
  {
  }

  lemma AllServed(scenario: Scenario, k: nat, ids: IdTable, fixture: Fixture)
    requires k <= |scenario.events| && At(scenario, k, ids, fixture)
    ensures forall r | r in ids && r.BugRef? :: ids[r] in fixture.bugs
  {
    forall r | r in ids && r.BugRef? ensures ids[r] in fixture.bugs {
      assert r.name in Fold(scenario, k).bugs.Keys;
      assert ids[r] in fixture.bugs.Keys;
    }
  }

  /** Between the two commits: the first stands, its record says `retry`, and the process is down. */
  ghost predicate Halfway(gaps: Gaps, scenario: Scenario, s: State, k: nat, ids: IdTable)
    requires k < |scenario.events|
  {
    && Readable(s.journal) && Table(scenario, s.journal, k) == ids
    && |History(s.journal, scenario.events[k])| == 1 && Retries(History(s.journal, scenario.events[k]))
    && At(scenario, k + 1, ids, s.fixture) && Agrees(gaps, scenario, ids, Fold(scenario, k + 1), s.fixture)
    && Held(scenario, k + 1, ids, s.fixture.bugs)
  }

  function FirstCommit(scenario: Scenario, s: State): State
    requires Declared(scenario)
  {
    var sending := Steps(scenario, Steps(scenario, s, [CLEAN]), [CLEAN, CLEAN]);
    Steps(scenario, Steps(scenario, sending, [LOST, CLEAN]), [CLEAN])
  }

  lemma UpdateCommitted(gaps: Gaps, scenario: Scenario, s: State, k: nat, request: Request)
    requires Replayable(scenario) && Declared(scenario) && k < |scenario.events| && OneSided(scenario.events[k])
    requires Arrived(gaps, scenario, s, k) && At(scenario, k, s.process.ids, s.fixture)
    requires EventResolves(scenario.emails, scenario.events, k)
    requires Build(scenario, s.process.ids, scenario.events[k], s.fixture) == Some(request)
    requires Accepts(s.fixture, request)
    requires Applicable(Fold(scenario, k), scenario.events[k])
    ensures var event := scenario.events[k];
      var next := Commit(s.fixture, scenario.emails[event.actor], request);
      && At(scenario, k + 1, s.process.ids, next)
      && Agrees(After(gaps, scenario, Fold(scenario, k), event), scenario, s.process.ids, Fold(scenario, k + 1), next)
      && Held(scenario, k + 1, s.process.ids, next.bugs)
  {
    hide Replayable, Agrees, Held, After, Fold, At, Accepts, Commit, Build, Actors, Applicable, Readable, CreatedBefore,
      ReplayMachine.History, ShapeOk, Uses;
    AgreesAfterCommit(gaps, scenario, k, s.process.ids, s.fixture);
    AtCommit(scenario, k, s.process.ids, s.fixture);
    HeldAfterCommit(scenario, k, s.process.ids, s.fixture);
    assert s.process.ids + map[] == s.process.ids;
  }

  lemma FirstOfTwo(gaps: Gaps, scenario: Scenario, s: State, p: nat, made: IdTable, k: nat)
    requires Replayable(scenario) && Declared(scenario) && Inv(scenario, s, p, made)
    requires k < |scenario.events| && Arrived(gaps, scenario, s, k) && OneSided(scenario.events[k])
    requires Actors(scenario.events[k]) <= scenario.emails.Keys && Applicable(Fold(scenario, k), scenario.events[k])
    ensures Halfway(After(gaps, scenario, Fold(scenario, k), scenario.events[k]), scenario, FirstCommit(scenario, s), k,
                    s.process.ids)
    ensures FirstCommit(scenario, s).process == Down
  {
    hide Inv, Replayable, Agrees, Held, After, Fold, At, JournalOk, Accepts, Commit, Readable, Table, OneSided,
      ReplayMachine.History, Build, Applicable, Proceed, IdentityOf, HistoryOk, Reconcile, Arrived, Steps;
    EntersAt(gaps, scenario, s, p, made, k);
    var ids, event := s.process.ids, scenario.events[k];
    assert event.actor in Actors(event);
    var request := ArrivalAttempts(scenario, s, p, made);
    var building := s.(process := Building(k, ids, 1));
    Resolves(scenario, k);
    UpdateCommitted(gaps, scenario, s, k, request);
    CommittedUnmatched(After(gaps, scenario, Fold(scenario, k), event), scenario, k, ids,
                       Commit(s.fixture, scenario.emails[event.actor], request));
    MisreadAttempt(scenario, building, k, ids, request);
    var history := Recorded(scenario, event, [], map[], Retry);
    NextIsFresh(scenario, s.journal, k, history);
    WriteKeepsTable(scenario, s.journal, k, history);
    assert History(s.journal[event.name := history], event) == history by { WrittenHistory(s.journal, event, history); }
  }

  lemma WrittenHistory(journal: Journal, event: Event, history: seq<Attempt>)
    ensures History(journal[event.name := history], event) == history
  {
  }

  lemma EntersAt(gaps: Gaps, scenario: Scenario, s: State, p: nat, made: IdTable, k: nat)
    requires Declared(scenario) && Inv(scenario, s, p, made) && k < |scenario.events| && Arrived(gaps, scenario, s, k)
    ensures s.process.Entering? && s.process.k == k == p && s.process.ids == Table(scenario, s.journal, k)
    ensures Readable(s.journal) && History(s.journal, scenario.events[k]) == []
  {
    hide At, Agrees, Held, Fold, Inv, Table;
    EntersNext(scenario, s, p, made);
  }

  lemma CommittedUnmatched(gaps: Gaps, scenario: Scenario, k: nat, ids: IdTable, next: Fixture)
    requires Replayable(scenario) && k < |scenario.events| && OneSided(scenario.events[k])
    requires At(scenario, k + 1, ids, next) && Agrees(gaps, scenario, ids, Fold(scenario, k + 1), next)
    requires Actors(scenario.events[k]) <= scenario.emails.Keys
    ensures Reconcile(scenario, ids, scenario.events[k], next, Answer) == Some(Verdict(Retry, map[]))
  {
    hide Agrees, Fold, At, Reconcile, CreatedBefore, Creates, Uses, Replayable;
    IdsAreCreated(scenario, k + 1, ids, next);
    IdempotentCreatesNothing(scenario.events, k);
    Resolves(scenario, k);
    FoldAgain(scenario, k);
    OneSidedNeverMatches(gaps, scenario, ids, Fold(scenario, k + 1), scenario.events[k], next);
  }

  /** The attempt after the misread one may start. */
  lemma SecondAttempt(scenario: Scenario, s: State, p: nat, made: IdTable, k: nat, ids: IdTable)
    returns (request: Request)
    requires Replayable(scenario) && Declared(scenario) && Inv(scenario, s, p, made)
    requires k < |scenario.events| && OneSided(scenario.events[k]) && s.process == Entering(k, ids)
    requires Readable(s.journal) && Table(scenario, s.journal, k) == ids && At(scenario, k + 1, ids, s.fixture)
    requires |History(s.journal, scenario.events[k])| == 1 && Retries(History(s.journal, scenario.events[k]))
    ensures JournalOk(scenario, s.journal, k)
    ensures Attemptable(scenario, s, k, ids, History(s.journal, scenario.events[k]), request)
    ensures Accepts(s.fixture, request)
    ensures Steps(scenario, s, [CLEAN]) == s.(process := Building(k, ids, 2))
  {
    hide At, HandOk, HistoryOk, LedgerOk, Table, ServerOk, Replayable, Build, Accepts, ProcessOk, Commits, Readable,
      OneSided, ReplayMachine.History;
    RetriedInHand(scenario, s, p, made, k);
    HistoryAt(scenario, s.journal, k, k);
    TableKeys(scenario, s.journal, k, k);
    NothingAdded(ids, map[]);
    NoneCreated(scenario.events[k]);
    BuildsAfter(scenario, k, ids, map[], s.fixture);
    request := Build(scenario, ids, scenario.events[k], s.fixture).value;
    FirstNumber(scenario, scenario.events[k], History(s.journal, scenario.events[k]));
    OneStep(scenario, s, CLEAN);
  }

  lemma NoneCreated(event: Event)
    requires OneSided(event)
    ensures Creates(event) == {} && !IsCreate(event) && IsIdempotent(event)
  {
  }

  lemma FirstNumber(scenario: Scenario, event: Event, history: seq<Attempt>)
    requires HistoryOk(scenario, event, history) && |history| == 1
    ensures history[0].attempt == 1
  {
  }

  lemma RetriedInHand(scenario: Scenario, s: State, p: nat, made: IdTable, k: nat)
    requires Declared(scenario) && Inv(scenario, s, p, made)
    requires k < |scenario.events| && Retries(History(s.journal, scenario.events[k]))
    ensures p == k && JournalOk(scenario, s.journal, k)
  {
    hide At, HandOk, HistoryOk, LedgerOk, Table, ServerOk, ProcessOk, Commits, Readable;
    assert k < p ==> Advances(History(s.journal, scenario.events[k]));
  }

  /** The repeated commit of an update. */
  lemma UpdateRepeated(gaps: Gaps, scenario: Scenario, k: nat, ids: IdTable, fixture: Fixture, request: Request)
    requires Replayable(scenario) && Declared(scenario) && k < |scenario.events| && OneSided(scenario.events[k])
    requires At(scenario, k + 1, ids, fixture) && Agrees(gaps, scenario, ids, Fold(scenario, k + 1), fixture)
    requires Held(scenario, k + 1, ids, fixture.bugs) && EventResolves(scenario.emails, scenario.events, k)
    requires Build(scenario, ids, scenario.events[k], fixture) == Some(request) && Accepts(fixture, request)
    requires Applicable(Fold(scenario, k + 1), scenario.events[k])
    ensures var event := scenario.events[k];
      var next := Commit(fixture, scenario.emails[event.actor], request);
      && Agrees(After(gaps, scenario, Fold(scenario, k + 1), event), scenario, ids, Fold(scenario, k + 1), next)
      && Held(scenario, k + 1, ids, next.bugs)
  {
    hide Replayable, Agrees, Held, After, Fold, At, Accepts, Commit, Build, Applicable, CreatedBefore, ShapeOk, Uses,
      FlagsMoved;
    AgreesAfterRepeat(gaps, scenario, k, ids, fixture);
    AllServed(scenario, k + 1, ids, fixture);
    CommittedFlags(scenario, ids, scenario.events[k], fixture, scenario.emails[scenario.events[k].actor]);
    HeldAfterUpdate(scenario, k + 1, ids, scenario.events[k], fixture,
                    Commit(fixture, scenario.emails[scenario.events[k].actor], request));
  }

  /** The second of two commits. */
  lemma SecondOfTwo(gaps: Gaps, scenario: Scenario, s: State, p: nat, made: IdTable, k: nat, ids: IdTable)
    requires Replayable(scenario) && Declared(scenario) && Inv(scenario, s, p, made)
    requires k < |scenario.events| && OneSided(scenario.events[k]) && s.process == Entering(k, ids)
    requires Halfway(gaps, scenario, s, k, ids)
    requires Actors(scenario.events[k]) <= scenario.emails.Keys && Applicable(Fold(scenario, k + 1), scenario.events[k])
    ensures Arrived(After(gaps, scenario, Fold(scenario, k + 1), scenario.events[k]), scenario,
                    AfterDelivery(scenario, s), k + 1)
  {
    hide Inv, Replayable, Agrees, Held, After, Fold, At, JournalOk, Accepts, Commit, Readable, Table, OneSided,
      ReplayMachine.History, Build, Applicable, Proceed, IdentityOf, HistoryOk, Retries, Creates;
    var event := scenario.events[k];
    var history := History(s.journal, event);
    var request := SecondAttempt(scenario, s, p, made, k, ids);
    Resolves(scenario, k);
    ResolvedCreates(event, s.fixture);
    CleanAttempt(scenario, s.(process := Building(k, ids, 2)), k, ids, history, request);
    NoneCreated(event);
    NothingAdded(ids, ResolvedIds(event, s.fixture));
    NextIsFresh(scenario, s.journal, k, Recorded(scenario, event, history, ResolvedIds(event, s.fixture), Advance));
    UpdateRepeated(gaps, scenario, k, ids, s.fixture, request);
  }

  // ----- Runs -----

  /** A resumed process walks over the events already done. */
  lemma {:induction false} Rewalk(scenario: Scenario, s: State, moves: seq<Move>, i: nat, k: nat)
    returns (more: seq<Move>)
    requires Declared(scenario) && i <= k < |scenario.events|
    requires Run(scenario, s, moves).process == Entering(i, Table(scenario, Run(scenario, s, moves).journal, i))
    requires forall j | 0 <= j < k :: Advances(History(Run(scenario, s, moves).journal, scenario.events[j]))
    ensures moves <= more
    ensures var r := Run(scenario, s, moves);
      Run(scenario, s, more) == r.(process := Entering(k, Table(scenario, r.journal, k)))
    decreases k - i
  {
    hide Run, Table, Advances, ReplayMachine.History, Enter;
    var r := Run(scenario, s, moves);
    if i == k {
      more := moves;
    } else {
      EnterDone(scenario, r, k, i, Answer);
      RunAppend(scenario, s, moves, Next(CLEAN));
      more := Rewalk(scenario, s, moves + [Next(CLEAN)], i + 1, k);
    }
  }

  /** One event of a course, in some run that goes on from this one. */
  lemma TakeEvent(gaps: Gaps, scenario: Scenario, s: State, moves: seq<Move>, twice: nat, k: nat)
    returns (more: seq<Move>)
    requires Replayable(scenario) && Declared(scenario) && Initial(scenario, s) && k < |scenario.events|
    requires Arrived(gaps, scenario, Run(scenario, s, moves), k)
    requires Actors(scenario.events[k]) <= scenario.emails.Keys && Applicable(Fold(scenario, k), scenario.events[k])
    ensures Arrived(CourseStep(gaps, scenario, twice, k), scenario, Run(scenario, s, more), k + 1)
  {
    hide Inv, Replayable, Initial, Run, Arrived, After, Unsent, Fold, Applicable, Pending, Steps, Adopts;
    var p, made := Reached(scenario, s, moves);
    var r := Run(scenario, s, moves);
    var event := scenario.events[k];
    var pending := ArrivedFlags(gaps, scenario, r, p, made, k);
    if pending {
      QuietArrival(gaps, scenario, r, p, made, k);
      more := StepsRun(scenario, s, moves, [QUIET]);
      more := StepsRun(scenario, s, more, [QUIET, QUIET]);
      more := StepsRun(scenario, s, more, [QUIET, QUIET]);
      more := StepsRun(scenario, s, more, [QUIET]);
      if !Adopts(scenario, k) { NobodyAsked(gaps, scenario, k); }
    } else if k == twice && OneSided(event) && Applicable(Fold(scenario, k + 1), event) {
      more := TakeTwice(gaps, scenario, s, moves, k);
    } else {
      CleanArrival(gaps, scenario, r, p, made, k);
      more := StepsRun(scenario, s, moves, [CLEAN]);
      more := StepsRun(scenario, s, more, [CLEAN, CLEAN]);
      more := StepsRun(scenario, s, more, [CLEAN, CLEAN]);
    }
  }

  /** Without a requestee, a flag neither sent nor unsent changes any gap. */
  lemma NobodyAsked(gaps: Gaps, scenario: Scenario, k: nat)
    requires k < |scenario.events| && scenario.events[k].action.BugFlag? && scenario.events[k].action.requestee.None?
    requires Actors(scenario.events[k]) <= scenario.emails.Keys && Applicable(Fold(scenario, k), scenario.events[k])
    ensures var event := scenario.events[k];
      Unsent(gaps, scenario, Fold(scenario, k), event) == After(gaps, scenario, Fold(scenario, k), event) == gaps
  {
  }

  lemma ArrivedFlags(gaps: Gaps, scenario: Scenario, s: State, p: nat, made: IdTable, k: nat) returns (pending: bool)
    requires Replayable(scenario) && Declared(scenario) && Inv(scenario, s, p, made)
    requires k < |scenario.events| && Arrived(gaps, scenario, s, k)
    requires Actors(scenario.events[k]) <= scenario.emails.Keys
    ensures s.process.Entering? && pending == Pending(scenario, s.process.ids, scenario.events[k], s.fixture)
    ensures pending ==> scenario.events[k].action.BugFlag?
    ensures Adopts(scenario, k) ==> pending
    ensures pending ==> Adopts(scenario, k) || scenario.events[k].action.requestee.None?
  {
    hide Inv, Agrees, Held, Fold, At, Table, Readable, ReplayMachine.History, Replayable, MayHold, FlagMatches;
    EntersNext(scenario, s, p, made);
    pending := Pending(scenario, s.process.ids, scenario.events[k], s.fixture);
    if scenario.events[k].action.BugFlag? {
      FlaggedBugServed(scenario, k, s.process.ids, s.fixture);
      AdoptsWhenPending(scenario, k, s.process.ids, s.fixture);
    }
  }

  lemma FlaggedBugServed(scenario: Scenario, k: nat, ids: IdTable, fixture: Fixture)
    requires Replayable(scenario) && k < |scenario.events| && scenario.events[k].action.BugFlag?
    requires At(scenario, k, ids, fixture)
    ensures EventResolves(scenario.emails, scenario.events, k)
    ensures BugRef(scenario.events[k].action.bug) in ids && ids[BugRef(scenario.events[k].action.bug)] in fixture.bugs
  {
    Resolves(scenario, k);
    IdsAreCreated(scenario, k, ids, fixture);
    AllServed(scenario, k, ids, fixture);
    assert BugRef(scenario.events[k].action.bug) in Uses(scenario.events[k]);
  }

  /** The one-sided update, committed twice. */
  lemma TakeTwice(gaps: Gaps, scenario: Scenario, s: State, moves: seq<Move>, k: nat) returns (more: seq<Move>)
    requires Replayable(scenario) && Declared(scenario) && Initial(scenario, s) && k < |scenario.events|
    requires Arrived(gaps, scenario, Run(scenario, s, moves), k) && OneSided(scenario.events[k])
    requires Actors(scenario.events[k]) <= scenario.emails.Keys && Applicable(Fold(scenario, k), scenario.events[k])
    requires Applicable(Fold(scenario, k + 1), scenario.events[k])
    ensures Arrived(After(After(gaps, scenario, Fold(scenario, k), scenario.events[k]), scenario, Fold(scenario, k + 1),
                          scenario.events[k]), scenario, Run(scenario, s, more), k + 1)
  {
    hide Inv, Replayable, Initial, Run, Arrived, After, Fold, OneSided, Applicable, Steps, Halfway;
    var p, made := Reached(scenario, s, moves);
    var r := Run(scenario, s, moves);
    var gaps' := After(gaps, scenario, Fold(scenario, k), scenario.events[k]);
    EntersAt(gaps, scenario, r, p, made, k);
    FirstOfTwo(gaps, scenario, r, p, made, k);
    var ids := r.process.ids;
    more := StepsRun(scenario, s, moves, [CLEAN]);
    more := StepsRun(scenario, s, more, [CLEAN, CLEAN]);
    more := StepsRun(scenario, s, more, [LOST, CLEAN]);
    more := StepsRun(scenario, s, more, [CLEAN]);
    more := Return(gaps', scenario, s, more, k, ids);
    p, made := Reached(scenario, s, more);
    SecondOfTwo(gaps', scenario, Run(scenario, s, more), p, made, k, ids);
    more := StepsRun(scenario, s, more, [CLEAN]);
    more := StepsRun(scenario, s, more, [CLEAN, CLEAN]);
    more := StepsRun(scenario, s, more, [CLEAN, CLEAN]);
  }

  /** Back to the same event in a resumed run. */
  lemma Return(gaps: Gaps, scenario: Scenario, s: State, moves: seq<Move>, k: nat, ids: IdTable)
    returns (more: seq<Move>)
    requires Replayable(scenario) && Declared(scenario) && Initial(scenario, s) && k < |scenario.events|
    requires Run(scenario, s, moves).process == Down && Halfway(gaps, scenario, Run(scenario, s, moves), k, ids)
    ensures Run(scenario, s, more).process == Entering(k, ids)
    ensures Halfway(gaps, scenario, Run(scenario, s, more), k, ids)
  {
    hide Replayable, Initial, Run, Agrees, At, Held, Fold, Table, HistoryOk, Startable, ReplayMachine.History, HandOk,
      ServerOk, LedgerOk, ProcessOk, Inv, Advances;
    var p, made := Reached(scenario, s, moves);
    var r := Run(scenario, s, moves);
    StillStartable(scenario, r, p, made);
    RetriedInHand(scenario, r, p, made, k);
    RunAppend(scenario, s, moves, Resume);
    NoIdsAtFirst(scenario, r.journal);
    more := Rewalk(scenario, s, moves + [Resume], 0, k);
  }

  lemma NoIdsAtFirst(scenario: Scenario, journal: Journal)
    ensures Table(scenario, journal, 0) == map[]
  {
  }

  /** The whole course, up to event `k`. */
  lemma {:induction false} TakeCourse(scenario: Scenario, s: State, twice: nat, k: nat) returns (moves: seq<Move>)
    requires Replayable(scenario) && Declared(scenario) && Initial(scenario, s) && k <= |scenario.events|
    ensures Arrived(Coursed(scenario, twice, k), scenario, Run(scenario, s, moves), k)
  {
    hide Replayable, Initial, Run, Arrived, CourseStep, Applicable, Actors, Fold;
    if k == 0 {
      moves := [Resume];
      BeginCourse(scenario, s);
    } else {
      moves := TakeCourse(scenario, s, twice, k - 1);
      LoadedNext(scenario, k - 1);
      moves := TakeEvent(Coursed(scenario, twice, k - 1), scenario, s, moves, twice, k - 1);
    }
  }

  lemma BeginCourse(scenario: Scenario, s: State)
    requires Declared(scenario) && Initial(scenario, s)
    ensures Arrived(NoGaps, scenario, Run(scenario, s, [Resume]), 0)
  {
    AtStart(scenario, s.fixture);
    assert [Resume][..0] == [];
    assert Run(scenario, s, []) == s;
    assert Run(scenario, s, [Resume]) == Do(scenario, s, Resume);
  }

  /** Every course is the whole of some run that finishes. */
  lemma FinishCourse(scenario: Scenario, s: State, twice: nat) returns (moves: seq<Move>)
    requires Replayable(scenario) && Declared(scenario) && Initial(scenario, s)
    ensures var r := Run(scenario, s, moves);
      && r.process.Finished?
      && Agrees(Coursed(scenario, twice, |scenario.events|), scenario, r.process.ids,
                Fold(scenario, |scenario.events|), r.fixture)
  {
    hide Replayable, Initial, Run, Coursed, Agrees, Fold, Held, Readable;
    moves := TakeCourse(scenario, s, twice, |scenario.events|);
    RunAppend(scenario, s, moves, Next(CLEAN));
    moves := moves + [Next(CLEAN)];
  }

  // ----- The analysis is exact -----

  /** The run has finished, and the login is on the bug's CC. */
  ghost predicate OnCc(r: State, bug: string, login: string)
  {
    && r.process.Finished? && BugRef(bug) in r.process.ids && r.process.ids[BugRef(bug)] in r.fixture.bugs
    && login in r.fixture.bugs[r.process.ids[BugRef(bug)]].cc
  }

  /** The run has finished, and the bug is among its own dependencies, on both sides, just if `self`. */
  ghost predicate SelfEdgeIs(r: State, bug: string, self: bool)
  {
    && r.process.Finished? && BugRef(bug) in r.process.ids && r.process.ids[BugRef(bug)] in r.fixture.bugs
    && var id := r.process.ids[BugRef(bug)];
       (id in r.fixture.bugs[id].dependsOn <==> self) && (id in r.fixture.bugs[id].blocks <==> self)
  }

  /** A login the analysis lists as missing is missing from the server after some run that finishes. */
  lemma CcFallsShort(scenario: Scenario, s: State, bug: string, login: string) returns (moves: seq<Move>)
    requires Replayable(scenario) && Declared(scenario) && Initial(scenario, s)
    requires (bug, login) in Missing(scenario, |scenario.events|)
    ensures var exp := Fold(scenario, |scenario.events|); bug in exp.bugs && login in exp.bugs[bug].cc
    ensures Run(scenario, s, moves).process.Finished? && !OnCc(Run(scenario, s, moves), bug, login)
  {
    hide Initial, Run, Coursed, Agrees, Fold, Missing, BugAgrees;
    var n := |scenario.events|;
    MissingIsExpected(scenario, n, bug, login);
    CourseIsExact(scenario, n, n);
    moves := FinishCourse(scenario, s, n);
    var r := Run(scenario, s, moves);
    CcStands(Coursed(scenario, n, n), scenario, r.process.ids, Fold(scenario, n), r.fixture, bug, login);
  }

  lemma CcStands(gaps: Gaps, scenario: Scenario, ids: IdTable, exp: Expectation, fixture: Fixture, bug: string,
                 login: string)
    requires Agrees(gaps, scenario, ids, exp, fixture) && bug in exp.bugs && login in exp.bugs[bug].cc
    ensures BugRef(bug) in ids && ids[BugRef(bug)] in fixture.bugs
    ensures (bug, login) in gaps.mustMiss ==> login !in fixture.bugs[ids[BugRef(bug)]].cc
    ensures (bug, login) !in gaps.mayMiss ==> login in fixture.bugs[ids[BugRef(bug)]].cc
  {
    AgreeingBug(gaps, scenario, ids, exp, fixture, bug);
  }

  /** A login the fold puts on a bug's CC is there after every finished run exactly when the analysis does
      not list it as missing. */
  lemma CcExact(scenario: Scenario, s: State, bug: string, login: string)
    requires Replayable(scenario) && Declared(scenario) && Initial(scenario, s)
    requires var exp := Fold(scenario, |scenario.events|); bug in exp.bugs && login in exp.bugs[bug].cc
    ensures (forall moves: seq<Move> | Run(scenario, s, moves).process.Finished? ::
              OnCc(Run(scenario, s, moves), bug, login))
       <==> (bug, login) !in Missing(scenario, |scenario.events|)
  {
    hide Replayable, Initial, Run, Agrees, Fold, Missing, Table;
    if (bug, login) in Missing(scenario, |scenario.events|) {
      var moves := CcFallsShort(scenario, s, bug, login);
    } else {
      forall moves: seq<Move> | Run(scenario, s, moves).process.Finished?
        ensures OnCc(Run(scenario, s, moves), bug, login)
      {
        EndToEnd(scenario, s, moves);
        var r := Run(scenario, s, moves);
        CcStands(Current(scenario, |scenario.events|), scenario, r.process.ids, Fold(scenario, |scenario.events|),
                 r.fixture, bug, login);
      }
    }
  }

  lemma {:induction false} LooseWasCreated(scenario: Scenario, k: nat, bug: string)
    requires k <= |scenario.events| && WellFormed(scenario.emails, scenario.events)
    requires bug in Loose(scenario.events, k)
    ensures BugRef(bug) in CreatedBefore(scenario.events, k)
  {
    if bug in Loose(scenario.events, k - 1) {
      LooseWasCreated(scenario, k - 1, bug);
    } else {
      assert EventResolves(scenario.emails, scenario.events, k - 1);
      assert BugRef(bug) in Uses(scenario.events[k - 1]);
    }
  }

  lemma SelfEdgeStands(gaps: Gaps, scenario: Scenario, ids: IdTable, exp: Expectation, fixture: Fixture, bug: string)
    requires Agrees(gaps, scenario, ids, exp, fixture) && bug in exp.bugs
    ensures BugRef(bug) in ids && ids[BugRef(bug)] in fixture.bugs
    ensures var id := ids[BugRef(bug)];
      && (id in fixture.bugs[id].dependsOn <==> id in fixture.bugs[id].blocks)
      && (bug in gaps.mustSlip ==> (id in fixture.bugs[id].dependsOn) != (bug in exp.bugs[bug].dependsOn))
      && (bug !in gaps.maySlip ==> (id in fixture.bugs[id].dependsOn) == (bug in exp.bugs[bug].dependsOn))
  {
    assert SelfAgrees(gaps, ids, exp.bugs, fixture.bugs, bug);
  }

  /** A self-edge the analysis calls loose stands the other way after some run that finishes. */
  lemma SelfEdgeStrays(scenario: Scenario, s: State, bug: string) returns (moves: seq<Move>)
    requires Replayable(scenario) && Declared(scenario) && Initial(scenario, s)
    requires bug in Loose(scenario.events, |scenario.events|)
    ensures bug in Fold(scenario, |scenario.events|).bugs
    ensures SelfEdgeIs(Run(scenario, s, moves), bug, bug !in Fold(scenario, |scenario.events|).bugs[bug].dependsOn)
  {
    hide Initial, Run, Coursed, Agrees, Fold, Loose, CreatedBefore;
    var n := |scenario.events|;
    LooseWasCreated(scenario, n, bug);
    FoldSound(scenario, n);
    var twice := SlipIsAChoice(scenario, n, bug, n);
    if bug in Coursed(scenario, n, n).mustSlip { twice := n; }
    moves := FinishCourse(scenario, s, twice);
    var r := Run(scenario, s, moves);
    SelfEdgeStands(Coursed(scenario, twice, n), scenario, r.process.ids, Fold(scenario, n), r.fixture, bug);
  }

  /** A bug's self-edge stands as folded after every finished run exactly when the analysis does not call
      it loose. */
  lemma SelfEdgeExact(scenario: Scenario, s: State, bug: string)
    requires Replayable(scenario) && Declared(scenario) && Initial(scenario, s)
    requires bug in Fold(scenario, |scenario.events|).bugs
    ensures (forall moves: seq<Move> | Run(scenario, s, moves).process.Finished? ::
              SelfEdgeIs(Run(scenario, s, moves), bug, bug in Fold(scenario, |scenario.events|).bugs[bug].dependsOn))
       <==> bug !in Loose(scenario.events, |scenario.events|)
  {
    hide Replayable, Initial, Run, Agrees, Fold, Loose, Table;
    var n := |scenario.events|;
    if bug in Loose(scenario.events, n) {
      var moves := SelfEdgeStrays(scenario, s, bug);
      assert !SelfEdgeIs(Run(scenario, s, moves), bug, bug in Fold(scenario, n).bugs[bug].dependsOn);
    } else {
      forall moves: seq<Move> | Run(scenario, s, moves).process.Finished?
        ensures SelfEdgeIs(Run(scenario, s, moves), bug, bug in Fold(scenario, n).bugs[bug].dependsOn)
      {
        EndToEnd(scenario, s, moves);
        var r := Run(scenario, s, moves);
        SelfEdgeStands(Current(scenario, n), scenario, r.process.ids, Fold(scenario, n), r.fixture, bug);
      }
    }
  }
}
