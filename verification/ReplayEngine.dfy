/** The replay engine as it runs: the event loop, the id table it adopts into, the journal store and
    the server it calls. Every step a method takes is a step of `ReplayMachine`. */
module ReplayEngines {
  import opened Prelude
  import opened Scenarios
  import opened Fixtures
  import opened Records
  import opened Actions
  import opened Expected
  import opened Simulation
  import opened Recovery
  import opened ReplayMachine
  import opened ReplayTheorems
  import opened Adoption

  /** The surroundings of a run, decided in advance. A run that finds nothing ahead is killed there. */
  class Surroundings {
    var ahead: seq<Chance>

    constructor (chances: seq<Chance>)
      ensures ahead == chances
    {
      ahead := chances;
    }

    method Tick() returns (chance: Option<Chance>)
      modifies this
      ensures old(ahead) == [] ==> chance.None? && ahead == []
      ensures old(ahead) != [] ==> chance == Some(old(ahead)[0]) && ahead == old(ahead)[1..]
    {
      if ahead == [] {
        return None;
      }
      chance := Some(ahead[0]);
      ahead := ahead[1..];
    }
  }

  /** The server: one mutation per call. */
  class Server {
    var fixture: Fixture
    ghost var sent: seq<string>

    constructor (baseline: Fixture)
      ensures fixture == baseline && sent == []
    {
      fixture, sent := baseline, [];
    }

    /** Whether the mutation was committed. */
    method Invoke(author: string, request: Request, commits: bool, ghost event: string) returns (committed: bool)
      modifies this
      ensures committed == (commits && Accepts(old(fixture), request))
      ensures committed ==> fixture == Commit(old(fixture), author, request) && sent == old(sent) + [event]
      ensures !committed ==> fixture == old(fixture) && sent == old(sent)
    {
      hide Commit, Accepts;
      committed := commits && Accepts(fixture, request);
      if committed {
        fixture := Commit(fixture, author, request);
        sent := sent + [event];
      }
    }
  }

  /** The journal, as the attempt histories its files hold. */
  class JournalStore {
    var records: Journal

    constructor ()
      ensures records == map[]
    {
      records := map[];
    }

    /** The latest record of an event. */
    method Read(event: Event) returns (latest: Option<Attempt>)
      ensures latest == Latest(History(records, event))
    {
      var history := History(records, event);
      latest := if history == [] then None else Some(history[|history| - 1]);
    }

    method WriteInFlight(event: Event, record: Attempt) returns (written: bool)
      modifies this
      ensures written == (Readable(old(records)) && MayStart(History(old(records), event), record))
      ensures records == if written then old(records)[event.name := History(old(records), event) + [record]]
                         else old(records)
    {
      var history := History(records, event);
      written := Readable(records) && MayStart(history, record);
      if written { records := records[event.name := history + [record]]; }
    }

    method ReplaceCompleted(event: Event, record: Attempt) returns (written: bool)
      modifies this
      ensures written == (Readable(old(records)) && MayComplete(History(old(records), event), record))
      ensures records == if written
                         then old(records)[event.name := History(old(records), event)[record.attempt - 1 := record]]
                         else old(records)
    {
      var history := History(records, event);
      written := Readable(records) && MayComplete(history, record);
      if written { records := records[event.name := history[record.attempt - 1 := record]]; }
    }
  }

  /** The id table of one run. */
  class ReplayContext {
    var ids: IdTable

    constructor ()
      ensures ids == map[]
    {
      ids := map[];
    }

    method Adopt(resolved: IdTable)
      modifies this
      ensures ids == old(ids) + resolved
    {
      ids := ids + resolved;
    }
  }

  /** What happened to one event in one run. */
  datatype Status = Skipped | Executed | Reconciled | Resumed

  class ReplayEngine {
    const scenario: Scenario
    const store: JournalStore
    const server: Server
    const surroundings: Surroundings
    const context: ReplayContext
    var report: seq<(Status, string)>
    ghost const start: State
    ghost var process: Process
    ghost var trace: seq<Move>

    ghost function World(): State
      reads this, store, server
    {
      State(store.records, server.fixture, server.sent, process)
    }

    ghost predicate Valid()
      reads this, store, server
    {
      Declared(scenario) && World() == Run(scenario, start, trace)
    }

    constructor (scenario: Scenario, store: JournalStore, server: Server, surroundings: Surroundings)
      requires Declared(scenario)
      ensures Valid() && fresh(context) && context.ids == map[] && report == []
      ensures this.scenario == scenario && this.store == store && this.server == server
      ensures this.surroundings == surroundings
      ensures start == State(store.records, server.fixture, server.sent, Down) && trace == [] && process.Down?
    {
      this.scenario, this.store, this.server, this.surroundings := scenario, store, server, surroundings;
      context := new ReplayContext();
      report := [];
      start := State(store.records, server.fixture, server.sent, Down);
      process := Down;
      trace := [];
    }

    /** The step to `next` has been taken. */
    ghost method Took(move: Move, next: Process)
      requires Declared(scenario)
      requires World().(process := next) == Do(scenario, Run(scenario, start, trace), move)
      modifies this`trace, this`process
      ensures Valid() && process == next && trace == old(trace) + [move]
    {
      assert (trace + [move])[..|trace|] == trace;
      trace, process := trace + [move], next;
    }

    /** Asks for the next chance; with none ahead, the process is killed here. */
    method Continue() returns (chance: Option<Chance>)
      requires Valid()
      modifies surroundings, this`trace, this`process
      ensures Valid() && old(trace) <= trace
      ensures chance.Some? ==> trace == old(trace) && process == old(process)
      ensures chance.None? ==> process.Down?
      ensures old(surroundings.ahead) == [] ==> chance.None?
      ensures old(surroundings.ahead) != [] ==>
        chance == Some(old(surroundings.ahead)[0]) && surroundings.ahead == old(surroundings.ahead)[1..]
    {
      chance := surroundings.Tick();
      if chance.None? { Took(Crash, Down); }
    }

    /** `_write_completed` and the adoption that follows it, from either place that does both. */
    method Complete(k: nat, attempt: int, verdict: Verdict, ghost inRun: bool) returns (written: bool)
      requires Valid() && k < |scenario.events|
      requires || process == Settled(k, context.ids, attempt, inRun, verdict)
               || (process == Answered(k, context.ids, attempt, verdict.ids) && verdict.next == Advance)
      modifies this`trace, this`process, store, context, surroundings
      ensures Valid() && old(trace) <= trace
      ensures !written ==> process.Down?
      ensures written ==>
        && process == Onward(k, old(context.ids), attempt, inRun, verdict)
        && context.ids == if verdict.next == Advance then old(context.ids) + verdict.ids else old(context.ids)
      ensures OthersUntouched(old(store.records), store.records, scenario.events[k])
    {
      hide Run, Readable, MayComplete, IdentityOf;
      var event := scenario.events[k];
      var chance := Continue();
      if chance.None? { return false; }
      written := store.ReplaceCompleted(
        event, Completed(event.name, attempt, IdentityOf(scenario, event), verdict.ids, verdict.next));
      if !written {
        Took(Next(chance.value), Down);
        return;
      }
      Took(Next(chance.value), Onward(k, context.ids, attempt, inRun, verdict));
      if verdict.next == Advance { context.Adopt(verdict.ids); }
    }

    /** `_settle`: asks the server, and records its answer. */
    method Settle(k: nat, attempt: int, inRun: bool) returns (verdict: Option<Verdict>)
      requires Valid() && k < |scenario.events| && process == Unsettled(k, context.ids, attempt, inRun)
      modifies this`trace, this`process, store, context, surroundings
      ensures Valid() && old(trace) <= trace
      ensures verdict.None? ==> process.Down?
      ensures verdict.Some? ==>
        && process == Onward(k, old(context.ids), attempt, inRun, verdict.value)
        && context.ids == old(context.ids) + if verdict.value.next == Advance then verdict.value.ids else map[]
      ensures OthersUntouched(old(store.records), store.records, scenario.events[k])
    {
      hide Run, Reconcile, Build, OthersUntouched, Onward;
      var event, ids := scenario.events[k], context.ids;
      SameUntouched(store.records, event);
      var chance := Continue();
      if chance.None? { return None; }
      var found := Reconcile(scenario, ids, event, server.fixture, chance.value.reply);
      if found.None? || (!inRun && Build(scenario, ids, event, server.fixture).None?) {
        Took(Next(chance.value), Down);
        return None;
      }
      Took(Next(chance.value), Settled(k, ids, attempt, inRun, found.value));
      var written := Complete(k, attempt, found.value, inRun);
      return if written then found else None;
    }

    /** `_execute`: in-flight record, mutation, completed record. */
    method Execute(k: nat, attempt: int) returns (status: Option<Status>)
      requires Valid() && k < |scenario.events| && process == Building(k, context.ids, attempt)
      modifies this`trace, this`process, store, context, server, surroundings
      ensures Valid() && old(trace) <= trace
      ensures if status.Some? then process == Entering(k + 1, context.ids) else process.Down?
      ensures status.Some? ==> status.value in {Executed, Reconciled}
      ensures server.sent == old(server.sent) || server.sent == old(server.sent) + [scenario.events[k].name]
      ensures status == Some(Executed) ==> server.sent == old(server.sent) + [scenario.events[k].name]
      ensures OthersUntouched(old(store.records), store.records, scenario.events[k])
    {
      hide Run, Build, Readable, MayStart, IdentityOf, OthersUntouched, Commit, Actors;
      var event, ids := scenario.events[k], context.ids;
      SameUntouched(store.records, event);
      var chance := Continue();
      if chance.None? { return None; }
      var request := Build(scenario, ids, event, server.fixture);
      if request.None? {
        Took(Next(chance.value), Down);
        return None;
      }
      Took(Next(chance.value), Recording(k, ids, attempt, request.value));
      chance := Continue();
      if chance.None? { return None; }
      var written := store.WriteInFlight(event, InFlight(event.name, attempt, IdentityOf(scenario, event)));
      if !written {
        Took(Next(chance.value), Down);
        return None;
      }
      Took(Next(chance.value), Sending(k, ids, attempt, request.value));
      ghost var started := store.records;
      WrittenUntouched(old(store.records), event, History(started, event));
      status := Deliver(k, attempt, request.value);
      UntouchedTwice(old(store.records), started, store.records, event);
    }

    /** The mutation, and what its reply leads to. */
    method Deliver(k: nat, attempt: int, request: Request) returns (status: Option<Status>)
      requires Valid() && k < |scenario.events| && process == Sending(k, context.ids, attempt, request)
      modifies this`trace, this`process, store, context, server, surroundings
      ensures Valid() && old(trace) <= trace
      ensures if status.Some? then process == Entering(k + 1, context.ids) else process.Down?
      ensures status.Some? ==> status.value in {Executed, Reconciled}
      ensures server.sent == old(server.sent) || server.sent == old(server.sent) + [scenario.events[k].name]
      ensures status == Some(Executed) ==> server.sent == old(server.sent) + [scenario.events[k].name]
      ensures OthersUntouched(old(store.records), store.records, scenario.events[k])
    {
      hide Run, Commit, Accepts, ResolvedIds, OthersUntouched;
      var event, ids := scenario.events[k], context.ids;
      SameUntouched(store.records, event);
      var chance := Continue();
      if chance.None? { return None; }
      assert event.actor in Actors(event);
      var made := ResolvedIds(event, server.fixture);
      var committed := server.Invoke(scenario.emails[event.actor], request, chance.value.commits, event.name);
      if committed && chance.value.answers {
        Took(Next(chance.value), Answered(k, ids, attempt, made));
        var written := Complete(k, attempt, Verdict(Advance, made), true);
        return if written then Some(Executed) else None;
      }
      Took(Next(chance.value), Unsettled(k, ids, attempt, true));
      var verdict := Settle(k, attempt, true);
      return if verdict.Some? && verdict.value.next == Advance then Some(Reconciled) else None;
    }

    /** `_advance`: one event, from its latest record. */
    method AdvanceEvent(k: nat, latest: Option<Attempt>) returns (status: Option<Status>)
      requires Valid() && k < |scenario.events| && process == Entering(k, context.ids)
      requires latest == Latest(History(store.records, scenario.events[k]))
      modifies this`trace, this`process, store, context, server, surroundings
      ensures Valid() && old(trace) <= trace
      ensures if status.Some? then process == Entering(k + 1, context.ids) else process.Down?
      ensures server.sent == old(server.sent) || server.sent == old(server.sent) + [scenario.events[k].name]
      ensures status == Some(Executed) ==> server.sent == old(server.sent) + [scenario.events[k].name]
      ensures status in {Some(Skipped), Some(Resumed)} ==> server.sent == old(server.sent)
      ensures status == Some(Skipped) ==> store.records == old(store.records)
      ensures OthersUntouched(old(store.records), store.records, scenario.events[k])
    {
      hide Run, ReadsAbsent, ReplayMachine.History, OthersUntouched;
      var event, ids := scenario.events[k], context.ids;
      SameUntouched(store.records, event);
      var chance := Continue();
      if chance.None? { return None; }
      if latest.None? {
        if !ReadsAbsent(event, server.fixture, chance.value.reply) {
          Took(Next(chance.value), Down);
          return None;
        }
        Took(Next(chance.value), Building(k, ids, 1));
        status := Execute(k, 1);
        return;
      }
      var record := latest.value;
      if record.Completed? {
        if record.next == Advance {
          Took(Next(chance.value), Entering(k + 1, ids + record.outcome));
          context.Adopt(record.outcome);
          return Some(Skipped);
        }
        if record.next != Retry {
          Took(Next(chance.value), Down);
          return None;
        }
        Took(Next(chance.value), Building(k, ids, record.attempt + 1));
        status := Execute(k, record.attempt + 1);
        return;
      }
      Took(Next(chance.value), Unsettled(k, ids, record.attempt, false));
      status := SettleEarlier(k, record.attempt);
    }

    /** An in-flight record from an earlier run: settled, and the event attempted again if it must be. */
    method SettleEarlier(k: nat, attempt: int) returns (status: Option<Status>)
      requires Valid() && k < |scenario.events| && process == Unsettled(k, context.ids, attempt, false)
      modifies this`trace, this`process, store, context, server, surroundings
      ensures Valid() && old(trace) <= trace
      ensures if status.Some? then process == Entering(k + 1, context.ids) else process.Down?
      ensures status != Some(Skipped)
      ensures server.sent == old(server.sent) || server.sent == old(server.sent) + [scenario.events[k].name]
      ensures status == Some(Executed) ==> server.sent == old(server.sent) + [scenario.events[k].name]
      ensures status == Some(Resumed) ==> server.sent == old(server.sent)
      ensures OthersUntouched(old(store.records), store.records, scenario.events[k])
    {
      hide Run, ReplayMachine.History, OthersUntouched;
      var verdict := Settle(k, attempt, false);
      if verdict.None? || verdict.value.next == Stop || verdict.value.next == Reconsider {
        return None;
      }
      if verdict.value.next == Advance {
        return Some(Resumed);
      }
      ghost var settled := store.records;
      status := Execute(k, attempt + 1);
      UntouchedTwice(old(store.records), settled, store.records, scenario.events[k]);
    }

    /** `_check_local_preconditions`: the latest record of every event, if replay can send them all and the
        journal fits the scenario. */
    method CheckLocalPreconditions() returns (latest: Option<seq<Option<Attempt>>>)
      ensures latest.Some? <==> AllSupported(scenario) && Startable(scenario, store.records)
      ensures latest.Some? ==> |latest.value| == |scenario.events|
      ensures latest.Some? ==> forall i | 0 <= i < |scenario.events| ::
        latest.value[i] == Latest(History(store.records, scenario.events[i]))
    {
      hide Supported;
      for i := 0 to |scenario.events|
        invariant forall j | 0 <= j < i :: Supported(scenario, scenario.events[j])
      {
        if !Supported(scenario, scenario.events[i]) {
          return None;
        }
      }
      if !Readable(store.records) || !(store.records.Keys <= Names(scenario)) {
        return None;
      }
      var found: seq<Option<Attempt>> := [];
      for i := 0 to |scenario.events|
        invariant |found| == i
        invariant forall j | 0 <= j < i :: found[j] == Latest(History(store.records, scenario.events[j]))
        invariant forall j | 0 <= j < i :: SameDigest(scenario, History(store.records, scenario.events[j]))
      {
        var record := store.Read(scenario.events[i]);
        if record.Some? && record.value.identity.digest != scenario.digest {
          assert !SameDigest(scenario, History(store.records, scenario.events[i]));
          assert scenario.events[i] in scenario.events;
          return None;
        }
        found := found + [record];
      }
      return Some(found);
    }

    /** `_run`: every event in order, each from the latest record read before the first. */
    method RunEvents(latest: seq<Option<Attempt>>) returns (finished: bool)
      requires Valid() && WellFormed(scenario.emails, scenario.events)
      requires process == Entering(0, context.ids) && report == []
      requires |latest| == |scenario.events|
      requires forall i | 0 <= i < |scenario.events| ::
        latest[i] == Latest(History(store.records, scenario.events[i]))
      modifies this`trace, this`process, this`report, store, context, server, surroundings
      ensures Valid() && old(trace) <= trace
      ensures if finished then process == Finished(context.ids) else process.Down?
      ensures finished ==> Reports(scenario.events, report, |scenario.events|)
      ensures finished ==>
        Count(report, Executed) <= |server.sent| - |old(server.sent)|
          <= Count(report, Executed) + Count(report, Reconciled)
    {
      hide Run, Do, ReplayMachine.History, OthersUntouched, EventResolves, Latest, Count, Reports;
      EmptyReport(scenario.events);
      for k := 0 to |scenario.events|
        invariant Valid() && old(trace) <= trace
        invariant process == Entering(k, context.ids)
        invariant forall i | k <= i < |scenario.events| ::
          latest[i] == Latest(History(store.records, scenario.events[i]))
        invariant Reports(scenario.events, report, k)
        invariant Count(report, Executed) <= |server.sent| - |old(server.sent)|
               <= Count(report, Executed) + Count(report, Reconciled)
      {
        ghost var before := store.records;
        var status := AdvanceEvent(k, latest[k]);
        if status.None? { return false; }
        LaterUntouched(scenario, before, store.records, k);
        ReportGrows(scenario.events, report, k, status.value);
        report := report + [(status.value, scenario.events[k].name)];
      }
      finished := Conclude();
    }

    /** Past the last event, the run ends. */
    method Conclude() returns (finished: bool)
      requires Valid() && process == Entering(|scenario.events|, context.ids)
      modifies this`trace, this`process, surroundings
      ensures Valid() && old(trace) <= trace
      ensures if finished then process == Finished(context.ids) else process.Down?
    {
      hide Run;
      var chance := Continue();
      if chance.None? { return false; }
      Took(Next(chance.value), Finished(context.ids));
      return true;
    }

    /** `_sweep_pristine`: no event's bug may exist yet. */
    method SweepPristine() returns (clear: bool)
      requires Valid() && process == Sweeping(0)
      modifies this`trace, this`process, surroundings
      ensures Valid() && old(trace) <= trace
      ensures if clear then process == Entering(0, map[]) else process.Down?
      ensures clear <==>
        |old(surroundings.ahead)| > |scenario.events|
        && ReadsPass(scenario.events, server.fixture, old(surroundings.ahead))
    {
      hide Run, ReadsAbsent;
      for k := 0 to |scenario.events|
        invariant Valid() && old(trace) <= trace && process == Sweeping(k)
        invariant k <= |old(surroundings.ahead)| && surroundings.ahead == old(surroundings.ahead)[k..]
        invariant forall j | 0 <= j < k ::
          ReadsAbsent(scenario.events[j], server.fixture, old(surroundings.ahead)[j].reply)
      {
        var chance := Continue();
        if chance.None? { return false; }
        var absent := ReadsAbsent(scenario.events[k], server.fixture, chance.value.reply);
        if !absent {
          Took(Next(chance.value), Down);
          return false;
        }
        Took(Next(chance.value), Sweeping(k + 1));
      }
      var chance := Continue();
      if chance.None? { return false; }
      Took(Next(chance.value), Entering(0, map[]));
      return true;
    }

    /** `resume`: carries on from whatever the journal holds. */
    method ResumeRun() returns (finished: bool)
      requires Valid() && Loaded(scenario)
      requires process.Down? && context.ids == map[] && report == []
      modifies this`trace, this`process, this`report, store, context, server, surroundings
      ensures Valid()
      ensures !AllSupported(scenario) ==> !finished && World() == old(World())
      ensures Reachable(scenario, old(World())) ==>
        && Reachable(scenario, World())
        && (finished ==> Delivered(scenario, World(), context.ids))
      ensures finished ==> Reports(scenario.events, report, |scenario.events|)
    {
      hide Run, AllSupported, DistinctAliases, Delivered, Reachable, Startable, ReplayMachine.History, Initial;
      ghost var before := World();
      ghost var already := trace;
      finished := false;
      var latest := CheckLocalPreconditions();
      if latest.Some? {
        Took(Resume, Entering(0, map[]));
        finished := RunEvents(latest.value);
      }
      Extends(scenario, start, already, trace, before, World());
      if Reachable(scenario, before) && finished {
        assert Replayable(scenario);
        FinishedDelivers(scenario, World(), context.ids);
      }
    }

    /** `replay`: a first run, where no event's bug exists yet, with an empty journal. */
    method ReplayRun() returns (finished: bool)
      requires Valid() && Loaded(scenario)
      requires process.Down? && context.ids == map[] && report == []
      modifies this`trace, this`process, this`report, store, context, server, surroundings
      ensures Valid()
      ensures !AllSupported(scenario) || old(store.records) != map[] ==> !finished && World() == old(World())
      ensures !ReadsPass(scenario.events, old(server.fixture), old(surroundings.ahead)) ==>
        !finished && World() == old(World())
      ensures (forall chance | chance in old(surroundings.ahead) :: chance.reply == Answer) ==>
        !AllAbsent(scenario.events, old(server.fixture)) ==> !finished && World() == old(World())
      ensures Reachable(scenario, old(World())) ==>
        && Reachable(scenario, World())
        && (finished ==> Delivered(scenario, World(), context.ids))
      ensures finished ==> Reports(scenario.events, report, |scenario.events|)
    {
      hide Run, AllSupported, DistinctAliases, Delivered, Reachable, Startable, ReplayMachine.History, Initial,
        ReadsPass, AllAbsent;
      ghost var before := World();
      ghost var already := trace;
      finished := false;
      var latest := CheckLocalPreconditions();
      if forall chance :: chance in surroundings.ahead ==> chance.reply == Answer {
        AnsweredReads(scenario.events, server.fixture, surroundings.ahead);
      }
      if latest.Some? && store.records == map[] {
        Took(Replay, Sweeping(0));
        var clear := SweepPristine();
        if clear { finished := RunEvents(latest.value); }
      }
      Extends(scenario, start, already, trace, before, World());
      if Reachable(scenario, before) && finished {
        assert Replayable(scenario);
        FinishedDelivers(scenario, World(), context.ids);
      }
    }
  }

  // ----- What a caller is promised -----

  /** Some sequence of runs leads here from an empty journal and a server without any bug of the scenario. */
  ghost predicate Reachable(scenario: Scenario, s: State)
    requires Declared(scenario)
  {
    exists first: State, moves: seq<Move> :: Initial(scenario, first) && Run(scenario, first, moves) == s
  }

  /** Every create and append event is committed exactly once, and the server holds what the fold
      of the scenario predicts under the run's id table. */
  ghost predicate Delivered(scenario: Scenario, s: State, ids: IdTable)
  {
    && (forall event | event in scenario.events && !IsIdempotent(event) :: Commits(s.sent, event) == 1)
    && Agrees(Current(scenario, |scenario.events|), scenario, ids,
              Fold(scenario, |scenario.events|), s.fixture)
  }

  lemma {:induction false} RunConcat(scenario: Scenario, s: State, a: seq<Move>, b: seq<Move>)
    requires Declared(scenario)
    ensures Run(scenario, s, a + b) == Run(scenario, Run(scenario, s, a), b)
    decreases |b|
  {
    hide Do;
    if b == [] {
      assert a + b == a;
    } else {
      RunConcat(scenario, s, a, b[..|b| - 1]);
      assert (a + b)[..|a + b| - 1] == a + b[..|b| - 1];
    }
  }

  /** Going on from a reachable state reaches only reachable states. */
  lemma Extends(scenario: Scenario, start: State, earlier: seq<Move>, later: seq<Move>, before: State, after: State)
    requires Declared(scenario) && earlier <= later
    requires before == Run(scenario, start, earlier) && after == Run(scenario, start, later)
    ensures Reachable(scenario, before) ==> Reachable(scenario, after)
  {
    hide Run, Initial;
    if Reachable(scenario, before) {
      var first, moves :| Initial(scenario, first) && Run(scenario, first, moves) == before;
      var further := later[|earlier|..];
      assert later == earlier + further;
      RunConcat(scenario, start, earlier, further);
      RunConcat(scenario, first, moves, further);
    }
  }

  lemma FinishedDelivers(scenario: Scenario, s: State, ids: IdTable)
    requires Replayable(scenario) && Declared(scenario) && Reachable(scenario, s) && s.process == Finished(ids)
    ensures Delivered(scenario, s, ids)
  {
    hide Run, Initial, Replayable, Agrees, Commits;
    var first, moves :| Initial(scenario, first) && Run(scenario, first, moves) == s;
    EndToEnd(scenario, first, moves);
    forall event | event in scenario.events && !IsIdempotent(event) ensures Commits(s.sent, event) == 1 {
      var i :| 0 <= i < |scenario.events| && scenario.events[i] == event;
      ExactlyOnce(scenario, first, moves, i);
    }
  }

  function Count(report: seq<(Status, string)>, status: Status): nat
  {
    if report == [] then 0
    else Count(report[..|report| - 1], status) + if report[|report| - 1].0 == status then 1 else 0
  }

  /** The report covers the first `k` events, in order. */
  predicate Reports(events: seq<Event>, report: seq<(Status, string)>, k: nat)
  {
    |report| == k <= |events| && forall i | 0 <= i < k :: report[i].1 == events[i].name
  }

  lemma EmptyReport(events: seq<Event>)
    ensures Reports(events, [], 0) && forall status :: Count([], status) == 0
  {
  }

  lemma ReportGrows(events: seq<Event>, report: seq<(Status, string)>, k: nat, status: Status)
    requires k < |events| && Reports(events, report, k)
    ensures Reports(events, report + [(status, events[k].name)], k + 1)
    ensures forall other ::
      Count(report + [(status, events[k].name)], other) == Count(report, other) + if other == status then 1 else 0
  {
    assert (report + [(status, events[k].name)])[..|report|] == report;
  }

  lemma LaterUntouched(scenario: Scenario, before: Journal, after: Journal, k: nat)
    requires WellFormed(scenario.emails, scenario.events) && k < |scenario.events|
    requires OthersUntouched(before, after, scenario.events[k])
    ensures forall i | k < i < |scenario.events| ::
      History(after, scenario.events[i]) == History(before, scenario.events[i])
  {
    forall i | k < i < |scenario.events| ensures scenario.events[i].name != scenario.events[k].name {
      assert scenario.events[k].name != scenario.events[i].name;
    }
  }

  function Latest(history: seq<Attempt>): Option<Attempt>
  {
    if history == [] then None else Some(history[|history| - 1])
  }

  /** Only the event's own history may have changed. */
  ghost predicate OthersUntouched(before: Journal, after: Journal, event: Event)
  {
    forall name | name != event.name ::
      (name in after <==> name in before) && (name in before ==> after[name] == before[name])
  }

  lemma SameUntouched(journal: Journal, event: Event)
    ensures OthersUntouched(journal, journal, event)
  {
  }

  lemma WrittenUntouched(journal: Journal, event: Event, history: seq<Attempt>)
    ensures OthersUntouched(journal, journal[event.name := history], event)
  {
  }

  lemma UntouchedTwice(first: Journal, second: Journal, third: Journal, event: Event)
    requires OthersUntouched(first, second, event) && OthersUntouched(second, third, event)
    ensures OthersUntouched(first, third, event)
  {
  }
}
