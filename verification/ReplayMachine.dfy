/** Crash-safe replay as a step system: a durable journal, the server, and a process that may be
    killed, or lose a reply, between any two steps. `Do` is one step; a run is a list of moves. */
module ReplayMachine {
  import opened AttemptFiles
  import opened Scenarios
  import opened Fixtures
  import opened Records
  import opened Actions

  /** What identifies every attempt of one event: the loaded scenario, the actor, the declared
      action and the marker. */
  datatype Identity = Identity(digest: string, actor: string, action: Action, marker: string)

  type Attempt = Record<Identity, IdTable>
  type Journal = map<string, seq<Attempt>>

  function IdentityOf(scenario: Scenario, event: Event): Identity
  {
    Identity(scenario.digest, event.actor, event.action, MarkerOf(scenario, event))
  }

  function History(journal: Journal, event: Event): seq<Attempt>
  {
    if event.name in journal then journal[event.name] else []
  }

  /** An attempt number that does not fit six digits makes the whole directory unreadable. */
  predicate Readable(journal: Journal)
  {
    forall name | name in journal :: |journal[name]| <= LAST_ATTEMPT
  }

  // ----- The process -----

  /** Where a run is in its loop over the events. `ids` is the context's id table. */
  datatype Process =
    | Down
    | Sweeping(k: nat)
    | Entering(k: nat, ids: IdTable)
    | Building(k: nat, ids: IdTable, attempt: int)
    | Recording(k: nat, ids: IdTable, attempt: int, request: Request)
    | Sending(k: nat, ids: IdTable, attempt: int, request: Request)
    | Answered(k: nat, ids: IdTable, attempt: int, made: IdTable)
    | Unsettled(k: nat, ids: IdTable, attempt: int, inRun: bool)
    | Settled(k: nat, ids: IdTable, attempt: int, inRun: bool, verdict: Verdict)
    | Finished(ids: IdTable)

  /** `sent` lists the event of every mutation the server has committed, in order. */
  datatype State = State(journal: Journal, fixture: Fixture, sent: seq<string>, process: Process)

  /** What the surroundings decide at a step: the shape of a read's reply, whether a mutation
      commits, and whether a committed one answers usably. */
  datatype Chance = Chance(reply: Reply, commits: bool, answers: bool)

  datatype Move = Replay | Resume | Crash | Next(chance: Chance)

  predicate Declared(scenario: Scenario)
  {
    forall event | event in scenario.events :: Actors(event) <= scenario.emails.Keys
  }

  // ----- Preconditions of a run -----

  function Names(scenario: Scenario): set<string>
  {
    set event | event in scenario.events :: event.name
  }

  predicate SameDigest(scenario: Scenario, history: seq<Attempt>)
  {
    history != [] ==> history[|history| - 1].identity.digest == scenario.digest
  }

  /** `_check_local_preconditions`: no record belongs to an event the scenario does not name, and
      every latest record was written for this scenario. */
  predicate Startable(scenario: Scenario, journal: Journal)
  {
    && Readable(journal) && journal.Keys <= Names(scenario)
    && forall event | event in scenario.events :: SameDigest(scenario, History(journal, event))
  }

  /** `_require_absent`: the alias of a create event reads as absent. */
  predicate ReadsAbsent(event: Event, fixture: Fixture, reply: Reply)
  {
    event.action.BugCreate? ==>
      match reply
      case Answer => event.action.serverAlias !in fixture.aliases
      case ExitTwo => true
      case Unrecognised => false
  }

  /** The absence checks of a whole sweep pass, one read a chance. */
  predicate ReadsPass(events: seq<Event>, fixture: Fixture, chances: seq<Chance>)
  {
    |events| <= |chances| && forall j | 0 <= j < |events| :: ReadsAbsent(events[j], fixture, chances[j].reply)
  }

  // ----- Steps -----

  function Sweep(scenario: Scenario, s: State, k: nat, reply: Reply): Process
  {
    if k >= |scenario.events| then Entering(0, map[])
    else if ReadsAbsent(scenario.events[k], s.fixture, reply) then Sweeping(k + 1)
    else Down
  }

  /** `_advance`: dispatch on the event's latest record. */
  function Enter(scenario: Scenario, s: State, k: nat, ids: IdTable, reply: Reply): Process
  {
    if k >= |scenario.events| then Finished(ids)
    else
      var event := scenario.events[k];
      var history := History(s.journal, event);
      if history == [] then
        if ReadsAbsent(event, s.fixture, reply) then Building(k, ids, 1) else Down
      else
        match history[|history| - 1]
        case InFlight(_, attempt, _) => Unsettled(k, ids, attempt, false)
        case Completed(_, attempt, _, outcome, next) =>
          if next == Advance then Entering(k + 1, ids + outcome)
          else if next == Retry then Building(k, ids, attempt + 1)
          else Down
  }

  function Prepare(scenario: Scenario, s: State, k: nat, ids: IdTable, attempt: int): Process
    requires Declared(scenario) && k < |scenario.events|
  {
    var request := Build(scenario, ids, scenario.events[k], s.fixture);
    if request.None? then Down else Recording(k, ids, attempt, request.value)
  }

  /** `write_in_flight`. */
  function Start(scenario: Scenario, s: State, k: nat, ids: IdTable, attempt: int, request: Request): State
    requires k < |scenario.events|
  {
    var event := scenario.events[k];
    var history := History(s.journal, event);
    var record := InFlight(event.name, attempt, IdentityOf(scenario, event));
    if Readable(s.journal) && MayStart(history, record)
    then s.(journal := s.journal[event.name := history + [record]], process := Sending(k, ids, attempt, request))
    else s.(process := Down)
  }

  /** The mutation itself. A commit whose reply is lost or unusable is settled like a failure. */
  function Send(scenario: Scenario, s: State, k: nat, ids: IdTable, attempt: int, request: Request, chance: Chance)
    : State
    requires Declared(scenario) && k < |scenario.events|
  {
    var event := scenario.events[k];
    if chance.commits && Accepts(s.fixture, request) then
      assert event.actor in Actors(event);
      State(s.journal, Commit(s.fixture, scenario.emails[event.actor], request), s.sent + [event.name],
            if chance.answers then Answered(k, ids, attempt, ResolvedIds(event, s.fixture))
            else Unsettled(k, ids, attempt, true))
    else s.(process := Unsettled(k, ids, attempt, true))
  }

  /** The read half of `_settle`. A resumed attempt also rebuilds its request, for the record. */
  function Settle(scenario: Scenario, s: State, k: nat, ids: IdTable, attempt: int, inRun: bool, reply: Reply)
    : Process
    requires Declared(scenario) && k < |scenario.events|
  {
    var event := scenario.events[k];
    var verdict := Reconcile(scenario, ids, event, s.fixture, reply);
    if verdict.None? || (!inRun && Build(scenario, ids, event, s.fixture).None?) then Down
    else Settled(k, ids, attempt, inRun, verdict.value)
  }

  /** `replace_completed`, then `onward` if it was written. */
  function Finish(scenario: Scenario, s: State, k: nat, attempt: int, outcome: IdTable, next: NextAction,
                  onward: Process)
    : State
    requires k < |scenario.events|
  {
    var event := scenario.events[k];
    var history := History(s.journal, event);
    var record := Completed(event.name, attempt, IdentityOf(scenario, event), outcome, next);
    if Readable(s.journal) && MayComplete(history, record)
    then s.(journal := s.journal[event.name := history[attempt - 1 := record]], process := onward)
    else s.(process := Down)
  }

  /** What a verdict leads to. After a failure in this run, the next attempt is left to `resume`. */
  function Onward(k: nat, ids: IdTable, attempt: int, inRun: bool, verdict: Verdict): Process
  {
    if verdict.next == Advance then Entering(k + 1, ids + verdict.ids)
    else if verdict.next == Retry && !inRun then Building(k, ids, attempt + 1)
    else Down
  }

  /** One step of a live process. */
  function Proceed(scenario: Scenario, s: State, chance: Chance): State
    requires Declared(scenario)
  {
    var n := |scenario.events|;
    match s.process
    case Down => s
    case Finished(_) => s
    case Sweeping(k) => s.(process := Sweep(scenario, s, k, chance.reply))
    case Entering(k, ids) => s.(process := Enter(scenario, s, k, ids, chance.reply))
    case Building(k, ids, attempt) => if k < n then s.(process := Prepare(scenario, s, k, ids, attempt)) else s
    case Recording(k, ids, attempt, request) =>
      if k < n then Start(scenario, s, k, ids, attempt, request) else s
    case Sending(k, ids, attempt, request) =>
      if k < n then Send(scenario, s, k, ids, attempt, request, chance) else s
    case Answered(k, ids, attempt, made) =>
      if k < n then Finish(scenario, s, k, attempt, made, Advance, Entering(k + 1, ids + made)) else s
    case Unsettled(k, ids, attempt, inRun) =>
      if k < n then s.(process := Settle(scenario, s, k, ids, attempt, inRun, chance.reply)) else s
    case Settled(k, ids, attempt, inRun, verdict) =>
      if k < n then
        Finish(scenario, s, k, attempt, verdict.ids, verdict.next, Onward(k, ids, attempt, inRun, verdict))
      else s
  }

  /** One step. A move the state does not allow changes nothing. */
  function Do(scenario: Scenario, s: State, move: Move): State
    requires Declared(scenario)
  {
    match move
    case Crash => s.(process := Down)
    case Resume =>
      if s.process.Down? && Startable(scenario, s.journal) then s.(process := Entering(0, map[])) else s
    case Replay =>
      if s.process.Down? && Startable(scenario, s.journal) && s.journal == map[] then s.(process := Sweeping(0)) else s
    case Next(chance) => Proceed(scenario, s, chance)
  }

  function Run(scenario: Scenario, s: State, moves: seq<Move>): State
    requires Declared(scenario)
    decreases |moves|
  {
    if moves == [] then s
    else Do(scenario, Run(scenario, s, moves[..|moves| - 1]), moves[|moves| - 1])
  }

  /** Before the first run: an empty journal, and nothing of the scenario's on the server. */
  predicate Initial(scenario: Scenario, s: State)
  {
    s.journal == map[] && Pristine(scenario.events, s.fixture) && s.sent == [] && s.process.Down?
  }

  /** How often an event's mutation has been committed. */
  function Commits(sent: seq<string>, event: Event): nat
  {
    multiset(sent)[event.name]
  }

  /** The ids the records of the first `k` events carry. */
  function Table(scenario: Scenario, journal: Journal, k: nat): IdTable
    requires k <= |scenario.events|
  {
    if k == 0 then map[]
    else
      var history := History(journal, scenario.events[k - 1]);
      Table(scenario, journal, k - 1) +
      if history != [] && history[|history| - 1].Completed? then history[|history| - 1].outcome else map[]
  }
}
