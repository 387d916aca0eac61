/** A replay on a server that holds other scenarios' bugs and attachments: it leaves all of them as they
    were, and adds nothing but its own. */
module Residue {
  import opened Prelude
  import opened Markers
  import opened Scenarios
  import opened Fixtures
  import opened Records
  import opened Actions
  import opened Expected
  import opened Simulation
  import opened Recovery
  import opened ReplayMachine
  import opened ReplaySafety
  import opened ReplayTheorems

  // ----- What was there stays, and what is new keeps to itself -----

  /** Everything that was on the server is still there, unchanged. */
  ghost predicate Kept(base: Fixture, fixture: Fixture)
  {
    && base.nextBug <= fixture.nextBug && base.nextAttachment <= fixture.nextAttachment
    && (forall k | k in base.bugs :: k in fixture.bugs && fixture.bugs[k] == base.bugs[k])
    && (forall k | k in base.attachments :: k in fixture.attachments && fixture.attachments[k] == base.attachments[k])
    && (forall s | s in base.aliases :: s in fixture.aliases && fixture.aliases[s] == base.aliases[s])
  }

  /** Ids given out since. */
  ghost predicate Issued(base: Fixture, ids: IdTable)
  {
    forall r | r in ids :: ids[r] >= if r.BugRef? then base.nextBug else base.nextAttachment
  }

  /** The bug is reached by the alias of one of these create events. */
  ghost predicate Aliased(events: seq<Event>, fixture: Fixture, k: int)
  {
    exists i | 0 <= i < |events| :: Aliases(events[i], fixture, k)
  }

  ghost predicate Aliases(event: Event, fixture: Fixture, k: int)
  {
    && IsCreate(event) && event.action.serverAlias in fixture.aliases
    && fixture.aliases[event.action.serverAlias] == k
  }

  /** A bug made since is one of these events', and its edges and attachments were made since. */
  ghost predicate NewBugApart(base: Fixture, events: seq<Event>, fixture: Fixture, k: int)
    requires k in fixture.bugs
  {
    && Aliased(events, fixture, k)
    && (forall y | y in fixture.bugs[k].dependsOn || y in fixture.bugs[k].blocks :: y >= base.nextBug)
    && (forall x | x in fixture.bugs[k].attachments :: x >= base.nextAttachment)
  }

  /** An attachment made since is listed on a bug made since. */
  ghost predicate NewUploadApart(base: Fixture, fixture: Fixture, x: int)
    requires x in fixture.attachments
  {
    var bug := fixture.attachments[x].bug;
    bug >= base.nextBug && bug in fixture.bugs && x in fixture.bugs[bug].attachments
  }

  ghost predicate Separate(base: Fixture, events: seq<Event>, fixture: Fixture)
  {
    && (forall k | k in fixture.bugs :: k < fixture.nextBug)
    && (forall x | x in fixture.attachments :: x < fixture.nextAttachment)
    && (forall k | k in fixture.bugs && k !in base.bugs :: k >= base.nextBug && NewBugApart(base, events, fixture, k))
    && (forall x | x in fixture.attachments && x !in base.attachments ::
          x >= base.nextAttachment && NewUploadApart(base, fixture, x))
    && (forall i | 0 <= i < |events| && IsCreate(events[i]) && events[i].action.serverAlias in fixture.aliases ::
          fixture.aliases[events[i].action.serverAlias] >= base.nextBug)
  }

  /** The request touches only what was made since. */
  ghost predicate KeepsOff(base: Fixture, events: seq<Event>, request: Request)
  {
    match request
    case CreateBug(alias, _, _, _, _, _, dependsOn, blocks) =>
      && (exists i | 0 <= i < |events| :: IsCreate(events[i]) && events[i].action.serverAlias == alias)
      && (forall y | y in dependsOn || y in blocks :: y >= base.nextBug)
    case UpdateBug(bug, _, _, _, _, dependsOn, blocks, _) =>
      && bug >= base.nextBug
      && (forall y | y in dependsOn.add || y in dependsOn.remove :: y >= base.nextBug)
      && (forall y | y in blocks.add || y in blocks.remove :: y >= base.nextBug)
    case UpdateAttachment(attachment, _, _) => attachment >= base.nextAttachment
    case _ => request.bug >= base.nextBug
  }

  /** The base ids are below the base counters. */
  ghost predicate Standing(base: Fixture)
  {
    (forall k | k in base.bugs :: k < base.nextBug) && (forall x | x in base.attachments :: x < base.nextAttachment)
  }

  // ----- Requests -----

  lemma ResolvedIssued(base: Fixture, ids: IdTable, names: seq<string>)
    requires Issued(base, ids) && ResolveBugs(ids, names).Some?
    ensures forall y | y in ResolveBugs(ids, names).value :: y >= base.nextBug
  {
    var resolved := ResolveBugs(ids, names).value;
    forall k | 0 <= k < |resolved| ensures resolved[k] >= base.nextBug { assert BugRef(names[k]) in ids; }
  }

  lemma BuildKeepsOff(base: Fixture, scenario: Scenario, ids: IdTable, k: nat, fixture: Fixture)
    requires Standing(base) && Kept(base, fixture) && Separate(base, scenario.events, fixture) && Issued(base, ids)
    requires k < |scenario.events| && Actors(scenario.events[k]) <= scenario.emails.Keys
    requires Build(scenario, ids, scenario.events[k], fixture).Some?
    ensures KeepsOff(base, scenario.events, Build(scenario, ids, scenario.events[k], fixture).value)
  {
    var event := scenario.events[k];
    match event.action
    case BugCreate(_, _, _, _, _, _, _, dependsOn, blocks) =>
      ResolvedIssued(base, ids, dependsOn);
      ResolvedIssued(base, ids, blocks);
    case BugUpdate(bug, _, _, _, _, _, dependsOn, blocks, _) =>
      var id := ids[BugRef(bug)];
      assert id >= base.nextBug && id !in base.bugs;
      assert NewBugApart(base, scenario.events, fixture, id);
      if dependsOn.Some? { ResolvedIssued(base, ids, dependsOn.value); }
      if blocks.Some? { ResolvedIssued(base, ids, blocks.value); }
    case AttachmentUpdate(attachment, _, _) => assert AttachmentRef(attachment) in ids;
    case _ => assert BugRef(event.action.bug) in ids;
  }

  // ----- Commits -----

  /** A committed request that keeps off what was there leaves it alone, and what it makes keeps apart. */
  lemma CommitKeepsApart(base: Fixture, events: seq<Event>, fixture: Fixture, author: string, request: Request)
    requires Standing(base) && Kept(base, fixture) && Separate(base, events, fixture)
    requires Accepts(fixture, request) && KeepsOff(base, events, request)
    ensures Kept(base, Commit(fixture, author, request)) && Separate(base, events, Commit(fixture, author, request))
  {
    match request
    case CreateBug(_, _, _, _, _, _, _, _) => CreateKeepsApart(base, events, fixture, author, request);
    case UpdateBug(_, _, _, _, _, _, _, _) => UpdateKeepsApart(base, events, fixture, author, request);
    case Upload(_, _, _, _) => UploadKeepsApart(base, events, fixture, author, request);
    case UpdateAttachment(_, _, _) => RewriteKeepsApart(base, events, fixture, author, request);
    case _ => FieldsKeepApart(base, events, fixture, author, request);
  }

  /** Nothing but the edges and own fields of new bugs differs. */
  lemma EditedApart(base: Fixture, events: seq<Event>, fixture: Fixture, next: Fixture)
    requires Standing(base) && Kept(base, fixture) && Separate(base, events, fixture)
    requires next == fixture.(bugs := next.bugs) && next.bugs.Keys == fixture.bugs.Keys
    requires forall k | k in base.bugs :: next.bugs[k] == fixture.bugs[k]
    requires forall k | k in fixture.bugs :: next.bugs[k].attachments == fixture.bugs[k].attachments
    requires forall k, y | k in fixture.bugs && k !in base.bugs
      && (y in next.bugs[k].dependsOn || y in next.bugs[k].blocks) :: y >= base.nextBug
    ensures Kept(base, next) && Separate(base, events, next)
  {
    forall k | k in next.bugs && k !in base.bugs ensures NewBugApart(base, events, next, k) {
      assert NewBugApart(base, events, fixture, k);
      SameAliases(events, fixture, next, k);
    }
    forall x | x in next.attachments && x !in base.attachments ensures NewUploadApart(base, next, x) {
      assert NewUploadApart(base, fixture, x);
    }
  }

  lemma SameAliases(events: seq<Event>, fixture: Fixture, next: Fixture, k: int)
    requires Aliased(events, fixture, k)
    requires forall s | s in fixture.aliases :: s in next.aliases && next.aliases[s] == fixture.aliases[s]
    ensures Aliased(events, next, k)
  {
    var i :| 0 <= i < |events| && Aliases(events[i], fixture, k);
    assert Aliases(events[i], next, k);
  }

  /** Edits of a bug made since, towards bugs made since: edges of the older bugs stay, and new edges
      lead to newer bugs. */
  ghost predicate EditedAbove(low: int, bugs: map<int, Bug>, next: map<int, Bug>)
  {
    && next.Keys == bugs.Keys
    && (forall k | k in bugs && k < low :: next[k] == bugs[k])
    && (forall k | k in bugs :: EdgesAbove(low, bugs[k], next[k]))
  }

  ghost predicate EdgesAbove(low: int, b: Bug, next: Bug)
  {
    && next == b.(dependsOn := next.dependsOn, blocks := next.blocks)
    && (forall y | y in next.dependsOn :: y in b.dependsOn || y >= low)
    && (forall y | y in next.blocks :: y in b.blocks || y >= low)
  }

  lemma EditsAbove(low: int, bugs: map<int, Bug>, bug: int, dependsOn: Delta<int>, blocks: Delta<int>)
    requires bug >= low
    requires forall y | y in dependsOn.add || y in dependsOn.remove || y in blocks.add || y in blocks.remove :: y >= low
    ensures EditedAbove(low, bugs, EditBlocks(EditDependsOn(bugs, bug, dependsOn), bug, blocks))
  {
    var once := EditDependsOn(bugs, bug, dependsOn);
    var twice := EditBlocks(once, bug, blocks);
    forall k | k in bugs ensures EdgesAbove(low, bugs[k], once[k]) && (k < low ==> once[k] == bugs[k]) {
      assert k < low ==> k != bug && k !in dependsOn.add && k !in dependsOn.remove;
    }
    forall k | k in bugs ensures EdgesAbove(low, once[k], twice[k]) && (k < low ==> twice[k] == once[k]) {
      assert k < low ==> k != bug && k !in blocks.add && k !in blocks.remove;
    }
  }

  lemma UpdateKeepsApart(base: Fixture, events: seq<Event>, fixture: Fixture, author: string, request: Request)
    requires request.UpdateBug? && Standing(base) && Kept(base, fixture) && Separate(base, events, fixture)
    requires Accepts(fixture, request) && KeepsOff(base, events, request)
    ensures Kept(base, Commit(fixture, author, request)) && Separate(base, events, Commit(fixture, author, request))
  {
    hide Kept, Separate, EditBlocks, EditDependsOn, Standing;
    var next := Commit(fixture, author, request);
    var b := fixture.bugs[request.bug];
    EditsAbove(base.nextBug, fixture.bugs[request.bug := Overlaid(b, request)], request.bug, request.dependsOnDelta,
               request.blocksDelta);
    UpdatedApart(base, events, fixture, next, request.bug);
  }

  /** The bug's own fields under an update. */
  function Overlaid(b: Bug, request: Request): Bug
    requires request.UpdateBug?
  {
    b.(scalars := Marked(b.scalars + request.scalars, request.dupe),
       dupeOf := if request.dupe.Some? then request.dupe else b.dupeOf,
       cc := ApplyDelta(b.cc, request.ccDelta),
       keywords := ApplyDelta(b.keywords, request.keywordsDelta),
       groups := ApplyDelta(b.groups, request.groupsDelta))
  }

  lemma UpdatedApart(base: Fixture, events: seq<Event>, fixture: Fixture, next: Fixture, bug: int)
    requires Standing(base) && Kept(base, fixture) && Separate(base, events, fixture) && bug in fixture.bugs
    requires bug >= base.nextBug && next == fixture.(bugs := next.bugs) && next.bugs.Keys == fixture.bugs.Keys
    requires forall k | k in fixture.bugs && k < base.nextBug :: next.bugs[k] == fixture.bugs[k]
    requires forall k | k in fixture.bugs ::
      && next.bugs[k].attachments == fixture.bugs[k].attachments
      && (forall y | y in next.bugs[k].dependsOn :: y in fixture.bugs[k].dependsOn || y >= base.nextBug)
      && (forall y | y in next.bugs[k].blocks :: y in fixture.bugs[k].blocks || y >= base.nextBug)
    ensures Kept(base, next) && Separate(base, events, next)
  {
    forall k | k in fixture.bugs && k !in base.bugs
      ensures forall y | y in next.bugs[k].dependsOn || y in next.bugs[k].blocks :: y >= base.nextBug
    {
      assert NewBugApart(base, events, fixture, k);
    }
    EditedApart(base, events, fixture, next);
  }

  lemma FieldsKeepApart(base: Fixture, events: seq<Event>, fixture: Fixture, author: string, request: Request)
    requires request.AddComment? || request.SetCustomFields? || request.SetFlag?
    requires Standing(base) && Kept(base, fixture) && Separate(base, events, fixture)
    requires Accepts(fixture, request) && KeepsOff(base, events, request)
    ensures Kept(base, Commit(fixture, author, request)) && Separate(base, events, Commit(fixture, author, request))
  {
    EdgesApart(base, events, fixture);
    FieldsOnly(fixture, author, request);
    hide Separate, Standing, Commit, Accepts;
    EditedApart(base, events, fixture, Commit(fixture, author, request));
  }

  /** A comment, custom fields or a flag change the one bug, and neither its edges nor its attachments. */
  lemma FieldsOnly(fixture: Fixture, author: string, request: Request)
    requires (request.AddComment? || request.SetCustomFields? || request.SetFlag?) && Accepts(fixture, request)
    ensures var next := Commit(fixture, author, request);
      && next == fixture.(bugs := next.bugs) && next.bugs.Keys == fixture.bugs.Keys
      && (forall k | k in fixture.bugs && k != request.bug :: next.bugs[k] == fixture.bugs[k])
      && (forall k | k in fixture.bugs :: next.bugs[k].attachments == fixture.bugs[k].attachments
            && next.bugs[k].dependsOn == fixture.bugs[k].dependsOn && next.bugs[k].blocks == fixture.bugs[k].blocks)
  {
  }

  lemma EdgesApart(base: Fixture, events: seq<Event>, fixture: Fixture)
    requires Separate(base, events, fixture)
    ensures forall k, y | k in fixture.bugs && k !in base.bugs
      && (y in fixture.bugs[k].dependsOn || y in fixture.bugs[k].blocks) :: y >= base.nextBug
  {
    forall k | k in fixture.bugs && k !in base.bugs
      ensures forall y | y in fixture.bugs[k].dependsOn || y in fixture.bugs[k].blocks :: y >= base.nextBug
    {
      assert NewBugApart(base, events, fixture, k);
    }
  }

  lemma RewriteKeepsApart(base: Fixture, events: seq<Event>, fixture: Fixture, author: string, request: Request)
    requires request.UpdateAttachment? && Standing(base) && Kept(base, fixture) && Separate(base, events, fixture)
    requires Accepts(fixture, request) && KeepsOff(base, events, request)
    ensures Kept(base, Commit(fixture, author, request)) && Separate(base, events, Commit(fixture, author, request))
  {
    var next := Commit(fixture, author, request);
    forall k | k in next.bugs && k !in base.bugs ensures NewBugApart(base, events, next, k) {
      assert NewBugApart(base, events, fixture, k);
      SameAliases(events, fixture, next, k);
    }
    forall x | x in next.attachments && x !in base.attachments ensures NewUploadApart(base, next, x) {
      assert NewUploadApart(base, fixture, x);
    }
  }

  lemma UploadKeepsApart(base: Fixture, events: seq<Event>, fixture: Fixture, author: string, request: Request)
    requires request.Upload? && Standing(base) && Kept(base, fixture) && Separate(base, events, fixture)
    requires Accepts(fixture, request) && KeepsOff(base, events, request)
    ensures Kept(base, Commit(fixture, author, request)) && Separate(base, events, Commit(fixture, author, request))
  {
    var next := Commit(fixture, author, request);
    forall k | k in next.bugs && k !in base.bugs ensures NewBugApart(base, events, next, k) {
      assert NewBugApart(base, events, fixture, k);
      SameAliases(events, fixture, next, k);
    }
    forall x | x in next.attachments && x !in base.attachments
      ensures x >= base.nextAttachment && NewUploadApart(base, next, x)
    {
      if x != fixture.nextAttachment { assert NewUploadApart(base, fixture, x); }
    }
  }

  /** A new bug without edges, reached by its event's alias. */
  lemma PlacedApart(base: Fixture, events: seq<Event>, fixture: Fixture, alias: string, bug: Bug)
    requires Standing(base) && Kept(base, fixture) && Separate(base, events, fixture) && alias !in fixture.aliases
    requires exists i | 0 <= i < |events| :: IsCreate(events[i]) && events[i].action.serverAlias == alias
    requires bug.dependsOn == [] && bug.blocks == [] && bug.attachments == []
    ensures var next := fixture.(bugs := fixture.bugs[fixture.nextBug := bug],
                                 aliases := fixture.aliases[alias := fixture.nextBug], nextBug := fixture.nextBug + 1);
      Kept(base, next) && Separate(base, events, next)
  {
    var next := fixture.(bugs := fixture.bugs[fixture.nextBug := bug],
                         aliases := fixture.aliases[alias := fixture.nextBug], nextBug := fixture.nextBug + 1);
    var i :| 0 <= i < |events| && IsCreate(events[i]) && events[i].action.serverAlias == alias;
    assert Aliases(events[i], next, fixture.nextBug);
    forall k | k in next.bugs && k !in base.bugs ensures k >= base.nextBug && NewBugApart(base, events, next, k) {
      if k != fixture.nextBug {
        assert NewBugApart(base, events, fixture, k);
        SameAliases(events, fixture, next, k);
      }
    }
    forall x | x in next.attachments && x !in base.attachments ensures NewUploadApart(base, next, x) {
      assert NewUploadApart(base, fixture, x);
    }
  }

  lemma CreateKeepsApart(base: Fixture, events: seq<Event>, fixture: Fixture, author: string, request: Request)
    requires request.CreateBug? && Standing(base) && Kept(base, fixture) && Separate(base, events, fixture)
    requires Accepts(fixture, request) && KeepsOff(base, events, request)
    ensures Kept(base, Commit(fixture, author, request)) && Separate(base, events, Commit(fixture, author, request))
  {
    hide Separate, EditBlocks, EditDependsOn, Standing;
    var id := fixture.nextBug;
    var bug := Bug(request.scalars, map[], map[], request.cc, request.keywords, request.groups, [], [], None,
                   [Comment(author, request.description, false)], []);
    PlacedApart(base, events, fixture, request.alias, bug);
    var placed := fixture.(bugs := fixture.bugs[id := bug], aliases := fixture.aliases[request.alias := id],
                           nextBug := id + 1);
    hide Kept;
    EditsAbove(base.nextBug, placed.bugs, id, Delta(request.dependsOn, []), Delta(request.blocks, []));
    UpdatedApart(base, events, placed, Commit(fixture, author, request), id);
  }

  // ----- Every run -----

  ghost predicate OutcomesIssued(base: Fixture, history: seq<Attempt>)
  {
    forall i | 0 <= i < |history| && history[i].Completed? :: Issued(base, history[i].outcome)
  }

  /** Whatever ids and request the process holds are of things made since. */
  ghost predicate HandApart(base: Fixture, events: seq<Event>, process: Process)
  {
    match process
    case Down => true
    case Sweeping(_) => true
    case Entering(_, ids) => Issued(base, ids)
    case Building(_, ids, _) => Issued(base, ids)
    case Recording(_, ids, _, request) => Issued(base, ids) && KeepsOff(base, events, request)
    case Sending(_, ids, _, request) => Issued(base, ids) && KeepsOff(base, events, request)
    case Answered(_, ids, _, made) => Issued(base, ids) && Issued(base, made)
    case Unsettled(_, ids, _, _) => Issued(base, ids)
    case Settled(_, ids, _, _, verdict) => Issued(base, ids) && Issued(base, verdict.ids)
    case Finished(ids) => Issued(base, ids)
  }

  ghost predicate JournalApart(base: Fixture, journal: Journal)
  {
    forall name | name in journal :: OutcomesIssued(base, journal[name])
  }

  ghost predicate RunApart(base: Fixture, scenario: Scenario, s: State)
  {
    && Standing(base) && Kept(base, s.fixture) && Separate(base, scenario.events, s.fixture)
    && JournalApart(base, s.journal) && HandApart(base, scenario.events, s.process)
  }

  lemma IssuedJoin(base: Fixture, a: IdTable, b: IdTable)
    requires Issued(base, a) && Issued(base, b)
    ensures Issued(base, a + b)
  {
  }

  lemma HistoryApart(base: Fixture, journal: Journal, event: Event)
    requires JournalApart(base, journal)
    ensures OutcomesIssued(base, History(journal, event))
  {
  }

  /** An advance names something made since. */
  lemma VerdictIssued(base: Fixture, scenario: Scenario, ids: IdTable, k: nat, fixture: Fixture, reply: Reply)
    requires Standing(base) && Separate(base, scenario.events, fixture) && Issued(base, ids)
    requires k < |scenario.events| && Actors(scenario.events[k]) <= scenario.emails.Keys
    requires Reconcile(scenario, ids, scenario.events[k], fixture, reply).Some?
    ensures Issued(base, Reconcile(scenario, ids, scenario.events[k], fixture, reply).value.ids)
  {
    if scenario.events[k].action.BugAttach? {
      UploadIssued(base, scenario, ids, k, fixture, reply);
    }
  }

  lemma UploadIssued(base: Fixture, scenario: Scenario, ids: IdTable, k: nat, fixture: Fixture, reply: Reply)
    requires Standing(base) && Separate(base, scenario.events, fixture) && Issued(base, ids)
    requires k < |scenario.events| && scenario.events[k].action.BugAttach?
    requires BugRef(scenario.events[k].action.bug) in ids
    ensures var event := scenario.events[k];
      Issued(base, ReconcileUpload(scenario, event, fixture, ids[BugRef(event.action.bug)], reply).ids)
  {
    hide MarkerHits, Summaries;
    var event := scenario.events[k];
    var id := ids[BugRef(event.action.bug)];
    assert id >= base.nextBug;
    if id in fixture.bugs {
      assert NewBugApart(base, scenario.events, fixture, id);
      var listed := fixture.bugs[id].attachments;
      var hits := MarkerHits(Summaries(fixture, listed), Token(MarkerOf(scenario, event)));
      if |hits| == 1 { assert hits[0] in hits && listed[hits[0]] in listed; }
    }
  }

  lemma SendApart(base: Fixture, scenario: Scenario, s: State, chance: Chance)
    requires Declared(scenario) && RunApart(base, scenario, s) && s.process.Sending? && s.process.k < |scenario.events|
    ensures RunApart(base, scenario, Proceed(scenario, s, chance))
  {
    hide Separate, Standing, JournalApart, Commit, Accepts;
    var event := scenario.events[s.process.k];
    assert event.actor in Actors(event);
    if chance.commits && Accepts(s.fixture, s.process.request) {
      CommitKeepsApart(base, scenario.events, s.fixture, scenario.emails[event.actor], s.process.request);
    }
  }

  lemma EnterApart(base: Fixture, scenario: Scenario, s: State, reply: Reply)
    requires RunApart(base, scenario, s) && s.process.Entering?
    ensures HandApart(base, scenario.events, Enter(scenario, s, s.process.k, s.process.ids, reply))
  {
    hide Separate, Kept, Standing;
    if s.process.k < |scenario.events| { HistoryApart(base, s.journal, scenario.events[s.process.k]); }
  }

  lemma StartApart(base: Fixture, scenario: Scenario, s: State)
    requires Declared(scenario) && RunApart(base, scenario, s) && s.process.Recording?
    requires s.process.k < |scenario.events|
    ensures var p := s.process;
      RunApart(base, scenario, Start(scenario, s, p.k, p.ids, p.attempt, p.request))
  {
    hide Separate, Kept, Standing, MayStart, Readable, IdentityOf;
    HistoryApart(base, s.journal, scenario.events[s.process.k]);
  }

  lemma FinishApart(base: Fixture, scenario: Scenario, s: State, k: nat, attempt: int, outcome: IdTable,
                    next: NextAction, onward: Process)
    requires RunApart(base, scenario, s) && k < |scenario.events| && Issued(base, outcome)
    requires HandApart(base, scenario.events, onward)
    ensures RunApart(base, scenario, Finish(scenario, s, k, attempt, outcome, next, onward))
  {
    hide Separate, Kept, Standing, Readable, IdentityOf, Issued;
    HistoryApart(base, s.journal, scenario.events[k]);
  }

  lemma ProceedApart(base: Fixture, scenario: Scenario, s: State, chance: Chance)
    requires Declared(scenario) && RunApart(base, scenario, s)
    ensures RunApart(base, scenario, Proceed(scenario, s, chance))
  {
    hide Separate, Kept, Standing, JournalApart, Build, Reconcile, Issued, KeepsOff, Enter, Start, Finish, Send;
    match s.process
    case Entering(_, _) => EnterApart(base, scenario, s, chance.reply);
    case Building(k, ids, _) =>
      if k < |scenario.events| && Build(scenario, ids, scenario.events[k], s.fixture).Some? {
        BuildKeepsOff(base, scenario, ids, k, s.fixture);
      }
    case Recording(k, _, _, _) => if k < |scenario.events| { StartApart(base, scenario, s); }
    case Sending(k, _, _, _) => if k < |scenario.events| { SendApart(base, scenario, s, chance); }
    case Answered(k, ids, attempt, made) =>
      IssuedJoin(base, ids, made);
      if k < |scenario.events| {
        FinishApart(base, scenario, s, k, attempt, made, Advance, Entering(k + 1, ids + made));
      }
    case Unsettled(k, ids, _, _) =>
      if k < |scenario.events| && Reconcile(scenario, ids, scenario.events[k], s.fixture, chance.reply).Some? {
        VerdictIssued(base, scenario, ids, k, s.fixture, chance.reply);
      }
    case Settled(k, ids, attempt, inRun, verdict) =>
      IssuedJoin(base, ids, verdict.ids);
      if k < |scenario.events| {
        FinishApart(base, scenario, s, k, attempt, verdict.ids, verdict.next, Onward(k, ids, attempt, inRun, verdict));
      }
    case _ => NoIdsYet(base);
  }

  lemma NoIdsYet(base: Fixture)
    ensures Issued(base, map[])
  {
  }

  lemma StepApart(base: Fixture, scenario: Scenario, s: State, move: Move)
    requires Declared(scenario) && RunApart(base, scenario, s)
    ensures RunApart(base, scenario, Do(scenario, s, move))
  {
    hide Separate, Kept, Standing, JournalApart, Proceed, Issued, Startable;
    NoIdsYet(base);
    if move.Next? { ProceedApart(base, scenario, s, move.chance); }
  }

  lemma StartsApart(scenario: Scenario, s: State)
    requires Initial(scenario, s)
    ensures RunApart(s.fixture, scenario, s)
  {
  }

  lemma {:induction false} RunKeepsApart(scenario: Scenario, s: State, moves: seq<Move>)
    requires Declared(scenario) && Initial(scenario, s)
    ensures RunApart(s.fixture, scenario, Run(scenario, s, moves))
    decreases |moves|
  {
    hide RunApart, Do, Initial;
    if moves == [] {
      StartsApart(scenario, s);
    } else {
      RunKeepsApart(scenario, s, moves[..|moves| - 1]);
      StepApart(s.fixture, scenario, Run(scenario, s, moves[..|moves| - 1]), moves[|moves| - 1]);
    }
  }

  /** Whatever else stood on the server when the first run started is as it was, in every state any runs
      reach: every bug with its edges, every attachment, every alias. */
  lemma OthersUntouched(scenario: Scenario, s: State, moves: seq<Move>)
    requires Declared(scenario) && Initial(scenario, s)
    ensures Kept(s.fixture, Run(scenario, s, moves).fixture)
  {
    hide Kept, Separate, Run, Initial;
    RunKeepsApart(scenario, s, moves);
  }

  // ----- Nothing else is added -----

  ghost predicate NamesAttachment(ids: IdTable, names: set<string>, k: int)
  {
    exists x :: x in names && AttachmentRef(x) in ids && ids[AttachmentRef(x)] == k
  }

  lemma {:induction false} AliasListed(events: seq<Event>, k: nat, i: nat)
    requires i < k <= |events| && IsCreate(events[i]) && DistinctAliases(events)
    ensures events[i].action.serverAlias in AliasTable(events, k)
    ensures AliasTable(events, k)[events[i].action.serverAlias] == events[i].action.bug
  {
    if i < k - 1 { AliasListed(events, k - 1, i); }
  }

  /** At each point of the scenario, a bug made since is one the id table names. */
  lemma NewBugIsNamed(base: Fixture, scenario: Scenario, k: nat, ids: IdTable, fixture: Fixture, bug: int)
    requires Replayable(scenario) && k <= |scenario.events| && At(scenario, k, ids, fixture)
    requires Separate(base, scenario.events, fixture) && bug in fixture.bugs && bug !in base.bugs
    ensures NamesBug(ids, Fold(scenario, k).bugs.Keys, bug)
  {
    hide Fold, EdgesAgree, SelvesAgree, BugsAgree, AttachmentsAgree, FlagsAt, WellFormed, AllSupported;
    assert NewBugApart(base, scenario.events, fixture, bug);
    var i :| 0 <= i < |scenario.events| && Aliases(scenario.events[i], fixture, bug);
    assert i < k;
    AliasListed(scenario.events, k, i);
    var name := scenario.events[i].action.bug;
    assert BugRef(name) in ids && ids[BugRef(name)] == bug;
    assert name in Fold(scenario, k).bugs.Keys;
  }

  lemma NewUploadIsNamed(base: Fixture, scenario: Scenario, k: nat, ids: IdTable, fixture: Fixture, x: int)
    requires Replayable(scenario) && k <= |scenario.events| && At(scenario, k, ids, fixture) && Standing(base)
    requires Separate(base, scenario.events, fixture) && x in fixture.attachments && x !in base.attachments
    ensures NamesAttachment(ids, Fold(scenario, k).attachments.Keys, x)
  {
    hide Fold, EdgesAgree, SelvesAgree, AttachmentsAgree, FlagsAt, AliasesAt, Replayable;
    assert NewUploadApart(base, fixture, x);
    var bug := fixture.attachments[x].bug;
    NewBugIsNamed(base, scenario, k, ids, fixture, bug);
    var name :| name in Fold(scenario, k).bugs.Keys && BugRef(name) in ids && ids[BugRef(name)] == bug;
    AgreeingBug(Current(scenario, k), scenario, ids, Fold(scenario, k), fixture, name);
    var listed, expected := fixture.bugs[bug].attachments, Fold(scenario, k).bugs[name].attachments;
    var n :| 0 <= n < |listed| && listed[n] == x;
    assert AttachmentRef(expected[n].alias) in ids && ids[AttachmentRef(expected[n].alias)] == x;
    assert expected[n].alias in Fold(scenario, k).attachments.Keys;
  }

  /** After a run that ends without error, every bug and every attachment on the server was there at the
      start or is one the run's id table names. */
  lemma NothingElse(scenario: Scenario, s: State, moves: seq<Move>)
    requires Replayable(scenario) && Declared(scenario) && Initial(scenario, s)
    requires Run(scenario, s, moves).process.Finished?
    ensures var r, exp := Run(scenario, s, moves), Fold(scenario, |scenario.events|);
      && (forall k | k in r.fixture.bugs :: k in s.fixture.bugs || NamesBug(r.process.ids, exp.bugs.Keys, k))
      && (forall x | x in r.fixture.attachments ::
            x in s.fixture.attachments || NamesAttachment(r.process.ids, exp.attachments.Keys, x))
  {
    hide Initial, Replayable, Run, At, Kept, Separate, HandOk, HistoryOk, JournalOk, Table, Fold, NamesBug,
      NamesAttachment, LedgerOk, JournalApart;
    var p, made := Reached(scenario, s, moves);
    RunKeepsApart(scenario, s, moves);
    var r := Run(scenario, s, moves);
    forall k | k in r.fixture.bugs && k !in s.fixture.bugs
      ensures NamesBug(r.process.ids, Fold(scenario, |scenario.events|).bugs.Keys, k)
    {
      NewBugIsNamed(s.fixture, scenario, |scenario.events|, r.process.ids, r.fixture, k);
    }
    forall x | x in r.fixture.attachments && x !in s.fixture.attachments
      ensures NamesAttachment(r.process.ids, Fold(scenario, |scenario.events|).attachments.Keys, x)
    {
      NewUploadIsNamed(s.fixture, scenario, |scenario.events|, r.process.ids, r.fixture, x);
    }
  }
}
