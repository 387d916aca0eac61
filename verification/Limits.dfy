/** Where the promises stop: properties a reader might expect that the code does not have, each with
    an input that shows it and the exact condition under which the code does meet it. */
module Limits {
  import opened Prelude
  import opened Markers
  import opened Scenarios
  import opened Fixtures
  import opened Records
  import opened Actions
  import opened Expected
  import opened Simulation
  import opened Recovery
  import opened ReplayMachine
  import opened ReplaySafety
  import opened ReplayTheorems
  import opened Completion
  import opened Deliveries
  import opened Courses
  import opened Adoption

  // ----- A `retry` record does not prove that a create event is uncommitted -----

  /** After a create's commit, reconciliation records `retry` exactly when the alias query exits with
      status 2. */
  lemma CreateRetryMisleads(scenario: Scenario, s: State, moves: seq<Move>, reply: Reply)
    requires Replayable(scenario) && Declared(scenario) && Initial(scenario, s)
    requires var r := Run(scenario, s, moves);
      && r.process.Unsettled? && r.process.k < |scenario.events|
      && IsCreate(scenario.events[r.process.k]) && Commits(r.sent, scenario.events[r.process.k]) > 0
    ensures var r := Run(scenario, s, moves);
      var verdict := Reconcile(scenario, r.process.ids, scenario.events[r.process.k], r.fixture, reply);
      verdict.Some? && (verdict.value.next == Retry <==> reply == ExitTwo)
  {
    hide Initial, Replayable, Run, At, HandOk, HistoryOk, JournalOk, LedgerOk, Table, Reconcile, ReplayMachine.History;
    var p, made := Reached(scenario, s, moves);
    var r := Run(scenario, s, moves);
    Resolves(scenario, p);
    CreateVerdictAfter(scenario, p, r.process.ids, made, r.fixture, reply);
  }

  const CREATE := Event("make", "ada", BugCreate("b", "alias", "text", map[], [], [], [], [], []))
  const ONE_BUG := Scenario("demo", "digest", map["ada" := "ada@example.org"], [CREATE])
  const BASELINE := Fixture(map[], map[], map[], 1, 1)
  const PRISTINE := State(map[], BASELINE, [], Down)

  /** The mutation commits, its reply is lost, and the alias query exits with status 2. */
  const MISREAD := Next(Chance(ExitTwo, true, false))

  /** The run as far as the in-flight record. */
  lemma CreateSending(r: State)
    requires Declared(ONE_BUG)
    requires r == Do(ONE_BUG, Do(ONE_BUG, Do(ONE_BUG, Do(ONE_BUG, PRISTINE, Resume), MISREAD), MISREAD), MISREAD)
    ensures r.process == Sending(0, map[], 1, CreateBug("alias", "text", map[], [], [], [], [], []))
    ensures r.fixture == BASELINE && r.sent == []
    ensures Readable(r.journal) && History(r.journal, CREATE) == [InFlight("make", 1, IdentityOf(ONE_BUG, CREATE))]
  {
    assert ONE_BUG.events[0] == CREATE;
    var launched := Do(ONE_BUG, PRISTINE, Resume);
    assert launched.process == Entering(0, map[]);
    var building := Do(ONE_BUG, launched, MISREAD);
    assert building.process == Building(0, map[], 1);
    var recording := Do(ONE_BUG, building, MISREAD);
    assert recording.process == Recording(0, map[], 1, CreateBug("alias", "text", map[], [], [], [], [], []));
  }

  /** The rest of it: the commit, the lost reply, the verdict and its record. */
  lemma CreateMisread(s: State)
    requires Declared(ONE_BUG)
    requires s.process == Sending(0, map[], 1, CreateBug("alias", "text", map[], [], [], [], [], []))
    requires s.fixture == BASELINE && s.sent == []
    requires Readable(s.journal) && History(s.journal, CREATE) == [InFlight("make", 1, IdentityOf(ONE_BUG, CREATE))]
    ensures var r := Do(ONE_BUG, Do(ONE_BUG, Do(ONE_BUG, s, MISREAD), MISREAD), MISREAD);
      Retries(History(r.journal, CREATE)) && Commits(r.sent, CREATE) == 1
  {
    hide Commit;
    assert ONE_BUG.events[0] == CREATE;
    var unsettled := Do(ONE_BUG, s, MISREAD);
    assert unsettled.process == Unsettled(0, map[], 1, true) && unsettled.sent == ["make"];
    var settled := Do(ONE_BUG, unsettled, MISREAD);
    assert settled.process == Settled(0, map[], 1, true, Verdict(Retry, map[]));
  }

  lemma OneBugLoads()
    ensures Replayable(ONE_BUG)
  {
    assert EventResolves(ONE_BUG.emails, ONE_BUG.events, 0);
  }

  /** The create commits, its reply is lost, the alias query exits with status 2: the record says
      `retry`, and the bug is there. */
  lemma CreateRetryAfterCommit() returns (moves: seq<Move>)
    ensures Replayable(ONE_BUG) && Declared(ONE_BUG) && Initial(ONE_BUG, PRISTINE)
    ensures var r := Run(ONE_BUG, PRISTINE, moves);
      Retries(History(r.journal, CREATE)) && Commits(r.sent, CREATE) == 1
  {
    OneBugLoads();
    hide Run, Do, Commits, Retries, ReplayMachine.History, Replayable;
    var sending := Do(ONE_BUG, Do(ONE_BUG, Do(ONE_BUG, Do(ONE_BUG, PRISTINE, Resume), MISREAD), MISREAD), MISREAD);
    CreateSending(sending);
    CreateMisread(sending);
    moves := [Resume, MISREAD, MISREAD, MISREAD, MISREAD, MISREAD, MISREAD];
    SevenMoves(moves);
  }

  lemma SevenMoves(moves: seq<Move>)
    requires Declared(ONE_BUG) && |moves| == 7
    ensures Run(ONE_BUG, PRISTINE, moves) ==
      Do(ONE_BUG, Do(ONE_BUG, Do(ONE_BUG, Do(ONE_BUG, Do(ONE_BUG, Do(ONE_BUG, Do(ONE_BUG, PRISTINE,
        moves[0]), moves[1]), moves[2]), moves[3]), moves[4]), moves[5]), moves[6])
  {
    hide Do;
    var m := moves;
    assert m[..7] == m;
    assert m[..1] == [] + [m[0]] && m[..2] == m[..1] + [m[1]] && m[..3] == m[..2] + [m[2]];
    assert m[..4] == m[..3] + [m[3]] && m[..5] == m[..4] + [m[4]] && m[..6] == m[..5] + [m[5]]
        && m[..7] == m[..6] + [m[6]];
    RunAppend(ONE_BUG, PRISTINE, [], m[0]);
    RunAppend(ONE_BUG, PRISTINE, m[..1], m[1]);
    RunAppend(ONE_BUG, PRISTINE, m[..2], m[2]);
    RunAppend(ONE_BUG, PRISTINE, m[..3], m[3]);
    RunAppend(ONE_BUG, PRISTINE, m[..4], m[4]);
    RunAppend(ONE_BUG, PRISTINE, m[..5], m[5]);
    RunAppend(ONE_BUG, PRISTINE, m[..6], m[6]);
  }

  // ----- A bug that was there before the first run is taken for the scenario's own -----

  /** Reads that exit with status 2; nothing commits. */
  const EXIT_TWO := Chance(ExitTwo, false, false)

  /** A create event whose alias is somebody else's passes its own absence check exactly when that read
      exits with status 2. The server then refuses the create, and the next read that answers finds the
      alias: the other bug is recorded as the one the event made. */
  lemma MisreadAdopts(scenario: Scenario, s: State, k: nat, ids: IdTable, request: Request)
    requires Declared(scenario) && Attemptable(scenario, s, k, ids, [], request) && s.process == Entering(k, ids)
    requires IsCreate(scenario.events[k]) && Live(scenario.events[k], s.fixture)
    ensures forall chance ::
      Proceed(scenario, s, chance).process == if chance.reply == ExitTwo then Building(k, ids, 1) else Down
    ensures var event := scenario.events[k];
      var found := map[BugRef(event.action.bug) := s.fixture.aliases[event.action.serverAlias]];
      var building := Steps(scenario, s, [EXIT_TWO]);
      Steps(scenario, Steps(scenario, Steps(scenario, building, [QUIET, QUIET]), [QUIET, QUIET]), [QUIET]) == State(
        s.journal[event.name := Recorded(scenario, event, [], found, Advance)], s.fixture, s.sent,
        Entering(k + 1, ids + found))
  {
    hide Build, HistoryOk, Readable, Recorded;
    var event := scenario.events[k];
    OneStep(scenario, s, EXIT_TWO);
    var found := map[BugRef(event.action.bug) := s.fixture.aliases[event.action.serverAlias]];
    QuietAttempt(scenario, s.(process := Building(k, ids, 1)), k, ids, found, request);
  }

  /** Whatever else the server holds: where the one alias of this scenario is live, some run ends without
      error, having sent nothing, with the other bug as the scenario's own. */
  lemma AdoptsForeign(s: State) returns (moves: seq<Move>)
    requires Unstarted(s) && "alias" in s.fixture.aliases
    ensures Replayable(ONE_BUG) && Declared(ONE_BUG) && !Initial(ONE_BUG, s)
    ensures Run(ONE_BUG, s, moves).process == Finished(map[BugRef("b") := s.fixture.aliases["alias"]])
    ensures Run(ONE_BUG, s, moves).fixture == s.fixture && Run(ONE_BUG, s, moves).sent == []
  {
    OneBugLoads();
    hide Run, Proceed, Steps, Build, HistoryOk, Replayable, Recorded;
    var launched := s.(process := Entering(0, map[]));
    var request := OneBugAttempts(launched);
    MisreadAdopts(ONE_BUG, launched, 0, map[], request);
    OneBugLaunches(s);
    moves := StepsRun(ONE_BUG, s, [Resume], [EXIT_TWO]);
    moves := StepsRun(ONE_BUG, s, moves, [QUIET, QUIET]);
    moves := StepsRun(ONE_BUG, s, moves, [QUIET, QUIET]);
    moves := StepsRun(ONE_BUG, s, moves, [QUIET]);
    var last := Run(ONE_BUG, s, moves);
    OneBugEnds(last, last.process.ids);
    OneStep(ONE_BUG, last, QUIET);
    moves := StepsRun(ONE_BUG, s, moves, [QUIET]);
  }

  lemma OneBugLaunches(s: State)
    requires Declared(ONE_BUG) && Unstarted(s)
    ensures Run(ONE_BUG, s, [Resume]) == s.(process := Entering(0, map[]))
  {
    assert [Resume][..0] == [];
  }

  lemma OneBugAttempts(s: State) returns (request: Request)
    requires Declared(ONE_BUG) && s.journal == map[]
    ensures Attemptable(ONE_BUG, s, 0, map[], [], request)
  {
    request := CreateBug("alias", "text", map[], [], [], [], [], []);
  }

  lemma OneBugEnds(s: State, ids: IdTable)
    requires Declared(ONE_BUG) && s.process == Entering(1, ids)
    ensures Proceed(ONE_BUG, s, QUIET) == s.(process := Finished(ids))
  {
  }

  // ----- A flag request found already pending is taken as done, and its requestee stays off CC -----

  /** Adopting an unsent flag event keeps the bug's `cc` in agreement exactly when the declared requestee,
      if any, is already expected there. */
  lemma AdoptedFlagAgrees(scenario: Scenario, k: nat, cc: set<string>)
    requires Replayable(scenario) && k < |scenario.events| && scenario.events[k].action.BugFlag?
    requires scenario.events[k].action.bug in Fold(scenario, k).bugs
    requires cc == Fold(scenario, k).bugs[scenario.events[k].action.bug].cc
    ensures var a := scenario.events[k].action;
      a.bug in Fold(scenario, k + 1).bugs
      && (cc == Fold(scenario, k + 1).bugs[a.bug].cc
          <==> (a.requestee.Some? ==> a.requestee.value in scenario.emails && scenario.emails[a.requestee.value] in cc))
  {
    FoldNext(scenario, k);
    var a := scenario.events[k].action;
    assert a.requestee.Some? ==> a.requestee.value in Actors(scenario.events[k]);
  }

  /** From every reachable state that enters a flag event whose own request is already pending, some
      run completes the event without sending it. The server's CC stays as it was, while the fold puts
      the requestee there: unless the fold already had it, it is now missing. */
  lemma PendingFlagSkipsCc(scenario: Scenario, s: State, moves: seq<Move>) returns (more: seq<Move>)
    requires Replayable(scenario) && Declared(scenario) && Initial(scenario, s)
    requires var r := Run(scenario, s, moves);
      && r.process.Entering? && r.process.k < |scenario.events| && Readable(r.journal)
      && History(r.journal, scenario.events[r.process.k]) == []
      && scenario.events[r.process.k].action.BugFlag? && scenario.events[r.process.k].action.requestee.Some?
      && Pending(scenario, r.process.ids, scenario.events[r.process.k], r.fixture)
    ensures moves <= more
    ensures var r, end := Run(scenario, s, moves), Run(scenario, s, more);
      && end.fixture == r.fixture && end.sent == r.sent
      && end.process == Entering(r.process.k + 1, r.process.ids)
    ensures var r, end := Run(scenario, s, moves), Run(scenario, s, more);
      var a := scenario.events[r.process.k].action;
      var before, after := Fold(scenario, r.process.k), Fold(scenario, r.process.k + 1);
      && a.requestee.value in scenario.emails && a.bug in before.bugs && a.bug in after.bugs
      && var login := scenario.emails[a.requestee.value];
         && login in after.bugs[a.bug].cc
         && (login !in before.bugs[a.bug].cc ==>
              login !in end.fixture.bugs[end.process.ids[BugRef(a.bug)]].cc)
  {
    hide Initial, Run, At, HandOk, HistoryOk, LedgerOk, Table, ServerOk, Inv, Replayable, Fold, JournalOk, Readable,
      Pending, Proceed, Steps, Build, Accepts, Reconcile, ReplayMachine.History;
    var r := Run(scenario, s, moves);
    var p, made := Reached(scenario, s, moves);
    var k, ids, event := r.process.k, r.process.ids, scenario.events[r.process.k];
    var request := ArrivalAttempts(scenario, r, p, made);
    PendingFlag(scenario, ids, event, r.fixture);
    QuietAttempt(scenario, r.(process := Building(k, ids, 1)), k, ids, map[], request);
    assert ids + map[] == ids;
    more := StepsRun(scenario, s, moves, [QUIET]);
    more := StepsRun(scenario, s, more, [QUIET, QUIET]);
    more := StepsRun(scenario, s, more, [QUIET, QUIET]);
    more := StepsRun(scenario, s, more, [QUIET]);
    FlagPutsOnCc(scenario, k, ids, r.fixture);
  }

  lemma FlagPutsOnCc(scenario: Scenario, k: nat, ids: IdTable, fixture: Fixture)
    requires Replayable(scenario) && k < |scenario.events| && scenario.events[k].action.BugFlag?
    requires scenario.events[k].action.requestee.Some? && At(scenario, k, ids, fixture)
    ensures var a := scenario.events[k].action;
      && a.requestee.value in scenario.emails && a.bug in Fold(scenario, k).bugs && a.bug in Fold(scenario, k + 1).bugs
      && scenario.emails[a.requestee.value] in Fold(scenario, k + 1).bugs[a.bug].cc
      && BugRef(a.bug) in ids && ids[BugRef(a.bug)] in fixture.bugs
      && (scenario.emails[a.requestee.value] !in Fold(scenario, k).bugs[a.bug].cc ==>
           scenario.emails[a.requestee.value] !in fixture.bugs[ids[BugRef(a.bug)]].cc)
  {
    FoldNext(scenario, k);
    assert scenario.events[k].action.requestee.value in Actors(scenario.events[k]);
    AgreeingBug(Current(scenario, k), scenario, ids, Fold(scenario, k), fixture, scenario.events[k].action.bug);
  }

  const ASK := BugFlag("b", "needinfo", '?', Some("bob"))
  const SHADOWED := Scenario("demo", "digest", map["ada" := "ada@example.org", "bob" := "bob@example.org"],
    [CREATE, Event("ask", "ada", ASK),
     Event("clear", "ada", BugUpdate("b", map[], false, Some([]), None, None, None, None, None)),
     Event("again", "ada", ASK)])

  lemma ShadowedLoads()
    ensures Replayable(SHADOWED)
  {
    hide EventResolves, Supported;
    ShadowedResolves();
    ShadowedSupported();
  }

  lemma ShadowedSupported()
    ensures AllSupported(SHADOWED)
  {
    assert Supported(SHADOWED, SHADOWED.events[0]) && Supported(SHADOWED, SHADOWED.events[1]);
  }

  lemma ShadowedResolves()
    ensures forall i | 0 <= i < 4 :: EventResolves(SHADOWED.emails, SHADOWED.events, i)
  {
    var events := SHADOWED.events;
    assert CreatedBefore(events, 1) == {BugRef("b")};
    assert CreatedBefore(events, 2) == CreatedBefore(events, 3) == {BugRef("b")};
    hide CreatedBefore;
    assert Actors(events[1]) == Actors(events[3]) == {"ada", "bob"} && Actors(events[2]) == {"ada"};
  }

  /** Bob is asked, taken off the CC, and asked again: some run ends with him off the server's CC. */
  lemma AskedTwice() returns (moves: seq<Move>)
    ensures Replayable(SHADOWED) && Declared(SHADOWED) && Initial(SHADOWED, PRISTINE)
    ensures "b" in Fold(SHADOWED, 4).bugs && "bob@example.org" in Fold(SHADOWED, 4).bugs["b"].cc
    ensures Run(SHADOWED, PRISTINE, moves).process.Finished?
    ensures !OnCc(Run(SHADOWED, PRISTINE, moves), "b", "bob@example.org")
  {
    hide Replayable, Run, Fold, Missing, OnCc, Declared;
    ShadowedLoads();
    ReplayableDeclares(SHADOWED);
    BobIsMissing();
    moves := CcFallsShort(SHADOWED, PRISTINE, "b", "bob@example.org");
  }

  lemma BobIsMissing()
    requires Replayable(SHADOWED)
    ensures ("b", "bob@example.org") in Missing(SHADOWED, 4)
  {
    hide Fold, Replayable;
    assert MayHold(SHADOWED, 2, "b", "needinfo", "bob@example.org");
    assert MayHold(SHADOWED, 3, "b", "needinfo", "bob@example.org");
    DeclaredCc(SHADOWED, 2);
    assert MissingAfter(Missing(SHADOWED, 3), SHADOWED, 3) == Missing(SHADOWED, 4);
  }

  lemma DeclaredCc(scenario: Scenario, k: nat)
    requires Replayable(scenario) && k < |scenario.events|
    requires scenario.events[k].action.BugUpdate? && scenario.events[k].action.newCc == Some([])
    ensures var bug := scenario.events[k].action.bug;
      bug in Fold(scenario, k + 1).bugs && Fold(scenario, k + 1).bugs[bug].cc == {}
  {
    hide Fold;
    FoldNext(scenario, k);
    var exp, event := Fold(scenario, k), scenario.events[k];
    var a := event.action;
    OptionalLinksFrame(exp.bugs[a.bug := UpdatedNames(scenario, event, exp.bugs[a.bug])], a.bug, a.newDependsOn,
                       a.newBlocks);
  }

  // ----- A self-edge declared on one side only may stand the other way -----

  const ITSELF := Scenario("demo", "digest", map["ada" := "ada@example.org"],
    [CREATE, Event("itself", "ada", BugUpdate("b", map[], false, None, None, None, Some(["b"]), Some([]), None))])

  lemma ItselfLoads()
    ensures Replayable(ITSELF)
  {
    var events := ITSELF.events;
    assert CreatedBefore(events, 1) == {BugRef("b")};
    assert BugRefs(["b"]) == {BugRef("b")};
    assert EventResolves(ITSELF.emails, events, 0) && EventResolves(ITSELF.emails, events, 1);
  }

  /** A bug declared to depend on itself and to block nothing: the fold has no self-edge, and some run
      ends with one. */
  lemma DependsOnItself() returns (moves: seq<Move>)
    ensures Replayable(ITSELF) && Declared(ITSELF) && Initial(ITSELF, PRISTINE)
    ensures "b" in Fold(ITSELF, 2).bugs && "b" !in Fold(ITSELF, 2).bugs["b"].dependsOn
    ensures SelfEdgeIs(Run(ITSELF, PRISTINE, moves), "b", true)
  {
    hide Replayable, Run, Fold, SelfEdgeIs, Declared;
    ItselfLoads();
    ReplayableDeclares(ITSELF);
    BlocksNothing(ITSELF, 1);
    assert "b" in ITSELF.events[1].action.newDependsOn.value;
    assert OneSided(ITSELF.events[1]);
    moves := SelfEdgeStrays(ITSELF, PRISTINE, "b");
  }

  lemma BlocksNothing(scenario: Scenario, k: nat)
    requires Replayable(scenario) && k < |scenario.events|
    requires scenario.events[k].action.BugUpdate? && scenario.events[k].action.newBlocks == Some([])
    ensures var bug := scenario.events[k].action.bug;
      bug in Fold(scenario, k + 1).bugs && bug !in Fold(scenario, k + 1).bugs[bug].dependsOn
  {
    hide Fold, FoldStep, Covers, AttachmentsConsistent, EdgesConsistent;
    FoldNext(scenario, k);
    FoldSound(scenario, k + 1);
    SelfFoldedBy(scenario, Fold(scenario, k), scenario.events[k]);
  }

  // ----- An attachment keeps its expected summary until an update declares a description -----

  lemma SummaryCarriesSentinel(entry: ExpectedAttachment, scenario: string, event: string)
    requires Summarized(entry) && entry.marker == Marker(scenario, event) && IsSlug(scenario) && IsSlug(event)
    ensures !Unmarked(entry.summary)
  {
    var description :| SummarizedAs(entry, description);
    SummaryMarkerUnique(description, scenario, event, entry.sha256, scenario, event);
    if Unmarked(entry.summary) { UnmarkedHasNoToken(entry.summary, scenario, event); }
  }

  /** On a server that agrees with the fold, an attachment's summary is the expected one exactly when
      no `attachment.update` has declared a description for it. */
  lemma SummaryExactUnlessRenamed(scenario: Scenario, k: nat, ids: IdTable, fixture: Fixture, x: string)
    requires Replayable(scenario) && k <= |scenario.events|
    requires Agrees(Current(scenario, k), scenario, ids, Fold(scenario, k), fixture)
    requires x in Fold(scenario, k).attachments
    ensures AttachmentRef(x) in ids && ids[AttachmentRef(x)] in fixture.attachments
    ensures fixture.attachments[ids[AttachmentRef(x)]].summary == Fold(scenario, k).attachments[x].summary
       <==> x !in Renamed(scenario.events, k)
  {
    FoldWellMarked(scenario, k);
    FoldSound(scenario, k);
    var entry := Fold(scenario, k).attachments[x];
    assert Homed(Fold(scenario, k), x);
    hide Replayable, Fold;
    assert AttachmentAgrees(Current(scenario, k), scenario, ids, entry,
                            fixture.attachments[ids[AttachmentRef(x)]]);
    EntryMarker(scenario, k, entry);
  }

  lemma EntryMarker(scenario: Scenario, k: nat, entry: ExpectedAttachment)
    requires Replayable(scenario) && k <= |scenario.events|
    requires entry.marker in MarkersBefore(scenario, k) && Summarized(entry)
    ensures !Unmarked(entry.summary)
  {
    var i :| 0 <= i < k && entry.marker == MarkerOf(scenario, scenario.events[i]);
    Resolves(scenario, i);
    SummaryCarriesSentinel(entry, scenario.name, scenario.events[i].name);
  }

  const RENAMED := Scenario("demo", "digest", map["ada" := "ada@example.org"],
    [CREATE, Event("put", "ada", BugAttach("log", "b", "text", "0", "text/plain", false)),
     Event("rename", "ada", AttachmentUpdate("log", false, Some("new")))])

  lemma {:induction false} FourBytesEach(s: string)
    ensures Utf8Length(s) <= 4 * |s|
  {
    if s != "" { FourBytesEach(s[1..]); }
  }

  lemma {:induction false} StrippedLeft(s: string)
    ensures |StripLeft(s)| <= |s|
  {
    if s != "" { StrippedLeft(s[1..]); }
  }

  lemma {:induction false} StrippedRight(s: string)
    ensures |StripRight(s)| <= |s|
  {
    if s != "" { StrippedRight(s[..|s| - 1]); }
  }

  lemma SummaryFits(description: string, marker: string, sha256: string)
    requires |description| + |marker| + |sha256| <= 50
    ensures Utf8Length(RenderAttachmentSummary(description, marker, sha256)) <= ATTACHMENT_SUMMARY_BYTE_LIMIT
  {
    var text := description + " " + Token(marker) + " sha256=" + sha256;
    StrippedLeft(text);
    StrippedRight(StripLeft(text));
    FourBytesEach(Strip(text));
  }

  lemma RenamedLoads()
    ensures Replayable(RENAMED)
  {
    hide Utf8Length, RenderAttachmentSummary, Strip;
    var events := RENAMED.events;
    SummaryFits("text", Marker("demo", "put"), "0");
    FourBytesEach("new");
    assert Supported(RENAMED, events[1]) && Supported(RENAMED, events[2]);
    assert CreatedBefore(events, 1) == {BugRef("b")};
    assert CreatedBefore(events, 2) == {BugRef("b"), AttachmentRef("log")};
    assert EventResolves(RENAMED.emails, events, 0) && EventResolves(RENAMED.emails, events, 1);
    assert EventResolves(RENAMED.emails, events, 2);
  }

  /** An attachment given a new description: after every finished run its summary is not the folded one. */
  lemma SummaryLost(moves: seq<Move>)
    requires Declared(RENAMED) && Run(RENAMED, PRISTINE, moves).process.Finished?
    ensures Replayable(RENAMED) && Initial(RENAMED, PRISTINE) && "log" in Fold(RENAMED, 3).attachments
    ensures var r := Run(RENAMED, PRISTINE, moves);
      && AttachmentRef("log") in r.process.ids && r.process.ids[AttachmentRef("log")] in r.fixture.attachments
      && r.fixture.attachments[r.process.ids[AttachmentRef("log")]].summary
         != Fold(RENAMED, 3).attachments["log"].summary
  {
    hide Replayable, Run, Fold, Table, Agrees, Current;
    RenamedLoads();
    ReplayableLoads(RENAMED);
    EndToEnd(RENAMED, PRISTINE, moves);
    assert AttachmentRef("log") in CreatedBefore(RENAMED.events, 3);
    FoldSound(RENAMED, 3);
    var r := Run(RENAMED, PRISTINE, moves);
    SummaryExactUnlessRenamed(RENAMED, 3, r.process.ids, r.fixture, "log");
  }
}
