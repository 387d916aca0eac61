/** Starts from a server on which a create event's alias is already live: what the absence checks are for.
    Without a read that exits with status 2 the event is never sent, recorded or adopted; with one, the bug
    that was there is taken for the event's own. */
module Adoption {
  import opened Scenarios
  import opened Fixtures
  import opened Records
  import opened Actions
  import opened ReplayMachine
  import opened ReplaySafety
  import opened Courses

  /** No run has taken a step yet; the server may hold anything. */
  predicate Unstarted(s: State)
  {
    s.journal == map[] && s.sent == [] && s.process.Down?
  }

  // ----- Which event made which id -----

  /** The request is the one its event builds, as far as aliases go. */
  predicate RequestOf(event: Event, request: Request)
  {
    if IsCreate(event) then request.CreateBug? && request.alias == event.action.serverAlias else !request.CreateBug?
  }

  predicate OutcomesOf(event: Event, history: seq<Attempt>)
  {
    forall j | 0 <= j < |history| && history[j].Completed? :: history[j].outcome.Keys <= Creates(event)
  }

  /** The process is at an event of the scenario, and holds ids of earlier events only. */
  predicate Before(scenario: Scenario, k: nat, ids: IdTable)
  {
    k < |scenario.events| && ids.Keys <= CreatedBefore(scenario.events, k)
  }

  predicate HandOf(scenario: Scenario, process: Process)
  {
    match process
    case Down => true
    case Sweeping(_) => true
    case Entering(k, ids) => k <= |scenario.events| && ids.Keys <= CreatedBefore(scenario.events, k)
    case Building(k, ids, _) => Before(scenario, k, ids)
    case Recording(k, ids, _, request) => Before(scenario, k, ids) && RequestOf(scenario.events[k], request)
    case Sending(k, ids, _, request) => Before(scenario, k, ids) && RequestOf(scenario.events[k], request)
    case Answered(k, ids, _, made) => Before(scenario, k, ids) && made.Keys <= Creates(scenario.events[k])
    case Unsettled(k, ids, _, _) => Before(scenario, k, ids)
    case Settled(k, ids, _, _, verdict) => Before(scenario, k, ids) && verdict.ids.Keys <= Creates(scenario.events[k])
    case Finished(ids) => ids.Keys <= CreatedBefore(scenario.events, |scenario.events|)
  }

  predicate Attributed(scenario: Scenario, s: State)
  {
    && HandOf(scenario, s.process)
    && forall i | 0 <= i < |scenario.events| :: OutcomesOf(scenario.events[i], History(s.journal, scenario.events[i]))
  }

  // ----- One create event: its alias, its commits and the id recorded for it -----

  /** The table names the bug the alias leads to. */
  predicate Leads(event: Event, fixture: Fixture, ids: IdTable)
    requires IsCreate(event)
  {
    && event.action.serverAlias in fixture.aliases && BugRef(event.action.bug) in ids
    && ids[BugRef(event.action.bug)] == fixture.aliases[event.action.serverAlias]
  }

  predicate Live(event: Event, fixture: Fixture)
    requires IsCreate(event)
  {
    event.action.serverAlias in fixture.aliases
  }

  predicate RecordsLead(event: Event, fixture: Fixture, history: seq<Attempt>)
    requires IsCreate(event)
  {
    forall j | 0 <= j < |history| && history[j].Completed? && history[j].next == Advance ::
      Leads(event, fixture, history[j].outcome)
  }

  /** Past the event, the process has the id; at the event, it has it in hand. */
  predicate HandLeads(scenario: Scenario, i: nat, fixture: Fixture, process: Process)
    requires i < |scenario.events| && IsCreate(scenario.events[i])
  {
    match process
    case Down => true
    case Sweeping(_) => true
    case Entering(k, ids) => k > i ==> Leads(scenario.events[i], fixture, ids)
    case Building(k, ids, _) => k > i ==> Leads(scenario.events[i], fixture, ids)
    case Recording(k, ids, _, _) => k > i ==> Leads(scenario.events[i], fixture, ids)
    case Sending(k, ids, _, _) => k > i ==> Leads(scenario.events[i], fixture, ids)
    case Unsettled(k, ids, _, _) => k > i ==> Leads(scenario.events[i], fixture, ids)
    case Answered(k, ids, _, made) =>
      && (k > i ==> Leads(scenario.events[i], fixture, ids))
      && (k == i ==> Leads(scenario.events[i], fixture, made))
    case Settled(k, ids, _, _, verdict) =>
      && (k > i ==> Leads(scenario.events[i], fixture, ids))
      && (k == i && verdict.next == Advance ==> Leads(scenario.events[i], fixture, verdict.ids))
    case Finished(ids) => Leads(scenario.events[i], fixture, ids)
  }

  /** Whether the event's alias is live says how often it has been committed since the start. */
  predicate Counted(base: Fixture, event: Event, fixture: Fixture, sent: seq<string>)
    requires IsCreate(event)
  {
    var alias := event.action.serverAlias;
    && (Live(event, base) ==> Live(event, fixture) && fixture.aliases[alias] == base.aliases[alias])
    && Commits(sent, event) == (if Live(event, fixture) then 1 else 0) - if Live(event, base) then 1 else 0
  }

  predicate Tracked(scenario: Scenario, base: Fixture, s: State, i: nat)
    requires i < |scenario.events| && IsCreate(scenario.events[i])
  {
    && Attributed(scenario, s) && Counted(base, scenario.events[i], s.fixture, s.sent)
    && RecordsLead(scenario.events[i], s.fixture, History(s.journal, scenario.events[i]))
    && HandLeads(scenario, i, s.fixture, s.process)
  }

  // ----- Steps -----

  lemma OnlyThisHistory(scenario: Scenario, journal: Journal, k: nat, history: seq<Attempt>)
    requires Loaded(scenario) && k < |scenario.events|
    ensures var next := journal[scenario.events[k].name := history];
      forall i | 0 <= i < |scenario.events| ::
        History(next, scenario.events[i]) == if i == k then history else History(journal, scenario.events[i])
  {
    forall i | 0 <= i < |scenario.events| && i != k ensures scenario.events[i].name != scenario.events[k].name {
      if i < k { assert scenario.events[i].name != scenario.events[k].name; }
    }
  }

  /** Writing one history that is well attributed. */
  lemma WriteTracked(scenario: Scenario, base: Fixture, s: State, i: nat, k: nat, history: seq<Attempt>,
                     process: Process)
    requires Loaded(scenario) && i < |scenario.events| && IsCreate(scenario.events[i]) && Tracked(scenario, base, s, i)
    requires k < |scenario.events| && OutcomesOf(scenario.events[k], history)
    requires k == i ==> RecordsLead(scenario.events[i], s.fixture, history)
    requires HandOf(scenario, process) && HandLeads(scenario, i, s.fixture, process)
    ensures Tracked(scenario, base,
                    s.(journal := s.journal[scenario.events[k].name := history], process := process), i)
  {
    hide Loaded, OutcomesOf, RecordsLead, HandOf, HandLeads, Counted, ReplayMachine.History;
    OnlyThisHistory(scenario, s.journal, k, history);
  }

  lemma NextIds(scenario: Scenario, i: nat, fixture: Fixture, k: nat, ids: IdTable, more: IdTable)
    requires Loaded(scenario) && i < |scenario.events| && IsCreate(scenario.events[i]) && Before(scenario, k, ids)
    requires more.Keys <= Creates(scenario.events[k])
    requires k > i ==> Leads(scenario.events[i], fixture, ids)
    requires k == i ==> Leads(scenario.events[i], fixture, more)
    ensures HandOf(scenario, Entering(k + 1, ids + more))
    ensures HandLeads(scenario, i, fixture, Entering(k + 1, ids + more))
  {
    if k > i {
      CreatorsDiffer(scenario.emails, scenario.events, i, k);
      assert BugRef(scenario.events[i].action.bug) in Creates(scenario.events[i]);
    }
  }

  lemma EnterTracked(scenario: Scenario, base: Fixture, s: State, i: nat, reply: Reply)
    requires Loaded(scenario) && i < |scenario.events| && IsCreate(scenario.events[i]) && Tracked(scenario, base, s, i)
    requires s.process.Entering?
    ensures var process := Enter(scenario, s, s.process.k, s.process.ids, reply);
      HandOf(scenario, process) && HandLeads(scenario, i, s.fixture, process)
  {
    hide Loaded, ReadsAbsent, ReplayMachine.History, Leads;
    var k, ids := s.process.k, s.process.ids;
    if k < |scenario.events| {
      var history := History(s.journal, scenario.events[k]);
      if history != [] && history[|history| - 1].Completed? && history[|history| - 1].next == Advance {
        NextIds(scenario, i, s.fixture, k, ids, history[|history| - 1].outcome);
      }
    }
  }

  lemma StartTracked(scenario: Scenario, base: Fixture, s: State, i: nat)
    requires Loaded(scenario) && i < |scenario.events| && IsCreate(scenario.events[i]) && Tracked(scenario, base, s, i)
    requires s.process.Recording?
    ensures var p := s.process;
      Tracked(scenario, base, Start(scenario, s, p.k, p.ids, p.attempt, p.request), i)
  {
    hide Loaded, ReplayMachine.History, Leads, MayStart, Readable, IdentityOf, Counted;
    var k, event := s.process.k, scenario.events[s.process.k];
    var history := History(s.journal, event) + [InFlight(event.name, s.process.attempt, IdentityOf(scenario, event))];
    WriteTracked(scenario, base, s, i, k, history, Sending(k, s.process.ids, s.process.attempt, s.process.request));
  }

  lemma FinishTracked(scenario: Scenario, base: Fixture, s: State, i: nat, k: nat, attempt: int, outcome: IdTable,
                      next: NextAction, onward: Process)
    requires Loaded(scenario) && i < |scenario.events| && IsCreate(scenario.events[i]) && Tracked(scenario, base, s, i)
    requires k < |scenario.events| && outcome.Keys <= Creates(scenario.events[k])
    requires k == i && next == Advance ==> Leads(scenario.events[i], s.fixture, outcome)
    requires HandOf(scenario, onward) && HandLeads(scenario, i, s.fixture, onward)
    ensures Tracked(scenario, base, Finish(scenario, s, k, attempt, outcome, next, onward), i)
  {
    hide Loaded, ReplayMachine.History, Leads, Readable, IdentityOf, Counted, HandOf, HandLeads;
    var event := scenario.events[k];
    var history := History(s.journal, event);
    var record := Completed(event.name, attempt, IdentityOf(scenario, event), outcome, next);
    if Readable(s.journal) && MayComplete(history, record) {
      WriteTracked(scenario, base, s, i, k, history[attempt - 1 := record], onward);
    }
    DownTracked(scenario, i, s.fixture);
  }

  lemma DownTracked(scenario: Scenario, i: nat, fixture: Fixture)
    requires i < |scenario.events| && IsCreate(scenario.events[i])
    ensures HandOf(scenario, Down) && HandLeads(scenario, i, fixture, Down)
  {
  }

  /** A commit moves the alias of the event it belongs to and no other. */
  lemma CommitAliases(fixture: Fixture, author: string, request: Request)
    requires Accepts(fixture, request)
    ensures Commit(fixture, author, request).aliases
         == if request.CreateBug? then fixture.aliases[request.alias := fixture.nextBug] else fixture.aliases
  {
  }

  lemma SendTracked(scenario: Scenario, base: Fixture, s: State, i: nat, chance: Chance)
    requires Loaded(scenario) && Declared(scenario) && i < |scenario.events| && IsCreate(scenario.events[i])
    requires Tracked(scenario, base, s, i) && s.process.Sending?
    ensures Tracked(scenario, base, Proceed(scenario, s, chance), i)
  {
    hide Commit, ReplayMachine.History, OutcomesOf, CreatedBefore;
    var k, event, request := s.process.k, scenario.events[s.process.k], s.process.request;
    assert event.actor in Actors(event);
    if chance.commits && Accepts(s.fixture, request) {
      CommitAliases(s.fixture, scenario.emails[event.actor], request);
      ResolvedCreates(event, s.fixture);
      if k != i {
        assert scenario.events[i].name != event.name by { NamesDiffer(scenario, i, k); }
        assert IsCreate(event) ==> event.action.serverAlias != scenario.events[i].action.serverAlias by {
          AliasesDiffer(scenario, i, k);
        }
      }
    }
  }

  lemma NamesDiffer(scenario: Scenario, i: nat, k: nat)
    requires Loaded(scenario) && i < |scenario.events| && k < |scenario.events| && i != k
    ensures scenario.events[i].name != scenario.events[k].name
  {
    var low, high := if i < k then i else k, if i < k then k else i;
    assert scenario.events[low].name != scenario.events[high].name;
  }

  lemma AliasesDiffer(scenario: Scenario, i: nat, k: nat)
    requires Loaded(scenario) && i < |scenario.events| && k < |scenario.events| && i != k
    requires IsCreate(scenario.events[i])
    ensures IsCreate(scenario.events[k]) ==>
      scenario.events[k].action.serverAlias != scenario.events[i].action.serverAlias
  {
    var low, high := if i < k then i else k, if i < k then k else i;
    if IsCreate(scenario.events[k]) {
      assert scenario.events[low].action.serverAlias != scenario.events[high].action.serverAlias;
    }
  }

  lemma VerdictOf(scenario: Scenario, ids: IdTable, k: nat, fixture: Fixture, reply: Reply)
    requires k < |scenario.events| && Actors(scenario.events[k]) <= scenario.emails.Keys
    requires Reconcile(scenario, ids, scenario.events[k], fixture, reply).Some?
    ensures var verdict := Reconcile(scenario, ids, scenario.events[k], fixture, reply).value;
      && verdict.ids.Keys <= Creates(scenario.events[k])
      && (IsCreate(scenario.events[k]) && verdict.next == Advance ==> Leads(scenario.events[k], fixture, verdict.ids))
  {
  }

  lemma BuildsOwn(scenario: Scenario, ids: IdTable, k: nat, fixture: Fixture)
    requires k < |scenario.events| && Actors(scenario.events[k]) <= scenario.emails.Keys
    requires Build(scenario, ids, scenario.events[k], fixture).Some?
    ensures RequestOf(scenario.events[k], Build(scenario, ids, scenario.events[k], fixture).value)
  {
  }

  lemma ProceedTracked(scenario: Scenario, base: Fixture, s: State, i: nat, chance: Chance)
    requires Loaded(scenario) && Declared(scenario) && i < |scenario.events| && IsCreate(scenario.events[i])
    requires Tracked(scenario, base, s, i)
    ensures Tracked(scenario, base, Proceed(scenario, s, chance), i)
  {
    hide Loaded, Build, Reconcile, Enter, Start, Finish, Send, RecordsLead, Counted, OutcomesOf, Leads, CreatedBefore,
      ReplayMachine.History, Sweep;
    match s.process
    case Sweeping(k) => SweepTracked(scenario, i, s, k, chance.reply);
    case Entering(_, _) => EnterTracked(scenario, base, s, i, chance.reply);
    case Building(k, ids, _) =>
      if Build(scenario, ids, scenario.events[k], s.fixture).Some? { BuildsOwn(scenario, ids, k, s.fixture); }
    case Recording(_, _, _, _) => StartTracked(scenario, base, s, i);
    case Sending(_, _, _, _) => SendTracked(scenario, base, s, i, chance);
    case Answered(k, ids, attempt, made) =>
      NextIds(scenario, i, s.fixture, k, ids, made);
      FinishTracked(scenario, base, s, i, k, attempt, made, Advance, Entering(k + 1, ids + made));
    case Unsettled(k, ids, _, _) =>
      if Reconcile(scenario, ids, scenario.events[k], s.fixture, chance.reply).Some? {
        VerdictOf(scenario, ids, k, s.fixture, chance.reply);
      }
    case Settled(k, ids, attempt, inRun, verdict) =>
      if verdict.next == Advance { NextIds(scenario, i, s.fixture, k, ids, verdict.ids); }
      var onward := Onward(k, ids, attempt, inRun, verdict);
      FinishTracked(scenario, base, s, i, k, attempt, verdict.ids, verdict.next, onward);
    case _ =>
  }

  lemma SweepTracked(scenario: Scenario, i: nat, s: State, k: nat, reply: Reply)
    requires i < |scenario.events| && IsCreate(scenario.events[i])
    ensures var process := Sweep(scenario, s, k, reply);
      HandOf(scenario, process) && HandLeads(scenario, i, s.fixture, process)
  {
  }

  lemma StepTracked(scenario: Scenario, base: Fixture, s: State, i: nat, move: Move)
    requires Loaded(scenario) && Declared(scenario) && i < |scenario.events| && IsCreate(scenario.events[i])
    requires Tracked(scenario, base, s, i)
    ensures Tracked(scenario, base, Do(scenario, s, move), i)
  {
    hide Loaded, Proceed, Startable, RecordsLead, OutcomesOf, ReplayMachine.History, Counted;
    if move.Next? { ProceedTracked(scenario, base, s, i, move.chance); }
  }

  // ----- Every run, from any server -----

  lemma StartsTracked(scenario: Scenario, s: State, i: nat)
    requires i < |scenario.events| && IsCreate(scenario.events[i]) && Unstarted(s)
    ensures Tracked(scenario, s.fixture, s, i)
  {
  }

  lemma {:induction false} RunTracked(scenario: Scenario, s: State, moves: seq<Move>, i: nat)
    requires Loaded(scenario) && Declared(scenario) && i < |scenario.events| && IsCreate(scenario.events[i])
    requires Unstarted(s)
    ensures Tracked(scenario, s.fixture, Run(scenario, s, moves), i)
    decreases |moves|
  {
    hide Tracked, Do, Loaded;
    if moves == [] {
      StartsTracked(scenario, s, i);
    } else {
      RunTracked(scenario, s, moves[..|moves| - 1], i);
      StepTracked(scenario, s.fixture, Run(scenario, s, moves[..|moves| - 1]), i, moves[|moves| - 1]);
    }
  }

  /** From any server at all: a create event has been committed exactly as often as its alias has become
      live since the start, and a live alias goes on leading to the same bug. */
  lemma CreatesCounted(scenario: Scenario, s: State, moves: seq<Move>, i: nat)
    requires Loaded(scenario) && Declared(scenario) && i < |scenario.events| && IsCreate(scenario.events[i])
    requires Unstarted(s)
    ensures var r, event := Run(scenario, s, moves), scenario.events[i];
      Counted(s.fixture, event, r.fixture, r.sent)
  {
    hide Run, Loaded;
    RunTracked(scenario, s, moves, i);
  }

  /** A run that ends without error has taken whatever bug the alias leads to for the event's own. It is the
      one the event made exactly if the alias was not live at the start. */
  lemma AdoptedExactly(scenario: Scenario, s: State, moves: seq<Move>, i: nat)
    requires Loaded(scenario) && Declared(scenario) && i < |scenario.events| && IsCreate(scenario.events[i])
    requires Unstarted(s) && Run(scenario, s, moves).process.Finished?
    ensures var r, event := Run(scenario, s, moves), scenario.events[i];
      var a := event.action;
      && Leads(event, r.fixture, r.process.ids)
      && Commits(r.sent, event) == (if Live(event, s.fixture) then 0 else 1)
      && (Live(event, s.fixture) ==> r.process.ids[BugRef(a.bug)] == s.fixture.aliases[a.serverAlias])
  {
    hide Run, Loaded, Attributed;
    RunTracked(scenario, s, moves, i);
  }

  // ----- Without a misread absence -----

  predicate ReadsWell(move: Move)
  {
    move.Next? ==> move.chance.reply != ExitTwo
  }

  /** The run has not got past the event's absence check. */
  predicate Held(process: Process, i: nat)
  {
    match process
    case Down => true
    case Sweeping(k) => k <= i
    case Entering(k, _) => k <= i
    case Building(k, _, _) => k < i
    case Recording(k, _, _, _) => k < i
    case Sending(k, _, _, _) => k < i
    case Answered(k, _, _, _) => k < i
    case Unsettled(k, _, _, _) => k < i
    case Settled(k, _, _, _, _) => k < i
    case Finished(_) => false
  }

  predicate Refused(scenario: Scenario, base: Fixture, s: State, i: nat)
    requires i < |scenario.events| && IsCreate(scenario.events[i])
  {
    && Tracked(scenario, base, s, i) && Live(scenario.events[i], base)
    && History(s.journal, scenario.events[i]) == [] && Held(s.process, i)
  }

  /** No write but the event's own touches its history. */
  lemma StepHistory(scenario: Scenario, s: State, i: nat, chance: Chance)
    requires Loaded(scenario) && Declared(scenario) && i < |scenario.events| && Held(s.process, i)
    ensures History(Proceed(scenario, s, chance).journal, scenario.events[i]) == History(s.journal, scenario.events[i])
  {
    hide Loaded, Build, Reconcile, Commit, Accepts, Sweep, Enter, MayStart, MayComplete, Readable, IdentityOf;
    match s.process
    case Recording(k, _, _, _) => NamesDiffer(scenario, k, i);
    case Answered(k, _, _, _) => NamesDiffer(scenario, k, i);
    case Settled(k, _, _, _, _) => NamesDiffer(scenario, k, i);
    case _ =>
  }

  lemma StepHeld(scenario: Scenario, s: State, i: nat, chance: Chance)
    requires Declared(scenario) && i < |scenario.events| && IsCreate(scenario.events[i]) && Held(s.process, i)
    requires Live(scenario.events[i], s.fixture) && History(s.journal, scenario.events[i]) == []
    requires chance.reply != ExitTwo
    ensures Held(Proceed(scenario, s, chance).process, i)
  {
    hide Build, Reconcile, Commit, Accepts, MayStart, MayComplete, Readable, IdentityOf;
  }

  lemma StepRefused(scenario: Scenario, base: Fixture, s: State, i: nat, move: Move)
    requires Loaded(scenario) && Declared(scenario) && i < |scenario.events| && IsCreate(scenario.events[i])
    requires Refused(scenario, base, s, i) && ReadsWell(move)
    ensures Refused(scenario, base, Do(scenario, s, move), i)
  {
    hide Loaded, Proceed, Startable, Attributed, RecordsLead, HandLeads, ReplayMachine.History;
    StepTracked(scenario, base, s, i, move);
    if move.Next? {
      StepHistory(scenario, s, i, move.chance);
      StepHeld(scenario, s, i, move.chance);
    }
  }

  lemma {:induction false} RunRefused(scenario: Scenario, s: State, moves: seq<Move>, i: nat)
    requires Loaded(scenario) && Declared(scenario) && i < |scenario.events| && IsCreate(scenario.events[i])
    requires Unstarted(s) && Live(scenario.events[i], s.fixture) && forall m | m in moves :: ReadsWell(m)
    ensures Refused(scenario, s.fixture, Run(scenario, s, moves), i)
    decreases |moves|
  {
    hide Tracked, Do, Loaded;
    if moves == [] {
      StartsTracked(scenario, s, i);
    } else {
      RunRefused(scenario, s, moves[..|moves| - 1], i);
      assert moves[|moves| - 1] in moves;
      StepRefused(scenario, s.fixture, Run(scenario, s, moves[..|moves| - 1]), i, moves[|moves| - 1]);
    }
  }

  /** The ids a process holds. */
  function IdsOf(process: Process): IdTable
  {
    match process
    case Down => map[]
    case Sweeping(_) => map[]
    case _ => process.ids
  }

  /** Where a create event's bug was there before the first run and no query exits with status 2, no
      sequence of runs ever sends the event, records it, holds an id for it, or ends without error. */
  lemma NeverAdopted(scenario: Scenario, s: State, moves: seq<Move>, i: nat)
    requires Loaded(scenario) && Declared(scenario) && i < |scenario.events| && IsCreate(scenario.events[i])
    requires Unstarted(s) && Live(scenario.events[i], s.fixture) && forall m | m in moves :: ReadsWell(m)
    ensures var r, event := Run(scenario, s, moves), scenario.events[i];
      && event.name !in r.sent && History(r.journal, event) == [] && !r.process.Finished?
      && BugRef(event.action.bug) !in IdsOf(r.process)
  {
    hide Run, Loaded, RecordsLead, HandLeads, ReplayMachine.History;
    RunRefused(scenario, s, moves, i);
    NotYetCreated(scenario, i);
    EarlierIds(scenario, Run(scenario, s, moves).process, i);
  }

  lemma NotYetCreated(scenario: Scenario, i: nat)
    requires Loaded(scenario) && i < |scenario.events| && IsCreate(scenario.events[i])
    ensures BugRef(scenario.events[i].action.bug) !in CreatedBefore(scenario.events, i)
  {
    assert EventResolves(scenario.emails, scenario.events, i);
    assert BugRef(scenario.events[i].action.bug) in Creates(scenario.events[i]);
  }

  lemma EarlierIds(scenario: Scenario, process: Process, i: nat)
    requires i < |scenario.events| && HandOf(scenario, process) && Held(process, i)
    ensures IdsOf(process).Keys <= CreatedBefore(scenario.events, i)
  {
    if !process.Down? && !process.Sweeping? { CreatedBeforeGrows(scenario.events, process.k, i); }
  }

  // ----- The sweep of a first run -----

  /** With every read answered, the absence checks pass exactly when no create event's alias is live. */
  lemma AnsweredReads(events: seq<Event>, fixture: Fixture, chances: seq<Chance>)
    requires forall c | c in chances :: c.reply == Answer
    ensures ReadsPass(events, fixture, chances) <==> |events| <= |chances| && AllAbsent(events, fixture)
  {
    assert forall j | 0 <= j < |chances| :: chances[j] in chances;
  }

  /** From event `k` on, the sweep gets through exactly when every remaining absence check passes. */
  lemma {:induction false} SweepDecides(scenario: Scenario, s: State, k: nat, chances: seq<Chance>)
    requires Declared(scenario) && k <= |scenario.events| && s.process == Sweeping(k)
    requires |chances| == |scenario.events| - k + 1
    ensures var r := Steps(scenario, s, chances);
      var passes := ReadsPass(scenario.events[k..], s.fixture, chances);
      r == s.(process := if passes then Entering(0, map[]) else Down)
    decreases |chances|
  {
    hide ReadsAbsent;
    if k == |scenario.events| {
      assert chances[1..] == [];
    } else {
      assert scenario.events[k..][1..] == scenario.events[k + 1..];
      var next := Proceed(scenario, s, chances[0]);
      if ReadsAbsent(scenario.events[k], s.fixture, chances[0].reply) {
        SweepDecides(scenario, next, k + 1, chances[1..]);
        ReadsPassFirst(scenario.events[k..], s.fixture, chances);
      } else {
        DownStays(scenario, next, chances[1..]);
      }
    }
  }

  lemma ReadsPassFirst(events: seq<Event>, fixture: Fixture, chances: seq<Chance>)
    requires 0 < |events| <= |chances|
    ensures ReadsPass(events, fixture, chances)
       <==> ReadsAbsent(events[0], fixture, chances[0].reply) && ReadsPass(events[1..], fixture, chances[1..])
  {
    hide ReadsAbsent;
    assert events == [events[0]] + events[1..];
    if ReadsAbsent(events[0], fixture, chances[0].reply) && ReadsPass(events[1..], fixture, chances[1..]) {
      forall j | 0 <= j < |events| ensures ReadsAbsent(events[j], fixture, chances[j].reply) {
        if j > 0 { assert ReadsAbsent(events[1..][j - 1], fixture, chances[1..][j - 1].reply); }
      }
    }
  }

  lemma {:induction false} DownStays(scenario: Scenario, s: State, chances: seq<Chance>)
    requires Declared(scenario) && s.process.Down?
    ensures Steps(scenario, s, chances) == s
    decreases |chances|
  {
    if chances != [] { DownStays(scenario, s, chances[1..]); }
  }

  /** A first run whose reads are answered starts on the events exactly when no create event's bug is there
      yet, and otherwise stops with nothing changed. */
  lemma SweepRefuses(scenario: Scenario, s: State, chances: seq<Chance>)
    requires Declared(scenario) && Unstarted(s) && |chances| == |scenario.events| + 1
    requires forall c | c in chances :: c.reply == Answer
    ensures Do(scenario, s, Replay) == s.(process := Sweeping(0))
    ensures Steps(scenario, Do(scenario, s, Replay), chances)
         == s.(process := if AllAbsent(scenario.events, s.fixture) then Entering(0, map[]) else Down)
  {
    hide ReadsPass, AllAbsent, Steps;
    SweepDecides(scenario, s.(process := Sweeping(0)), 0, chances);
    assert scenario.events[0..] == scenario.events;
    AnsweredReads(scenario.events, s.fixture, chances);
  }
}
