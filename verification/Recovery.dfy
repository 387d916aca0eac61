/** What reconciliation can conclude: the verdict on an event, read from the server alone, against
    whether the event has in fact been committed. */
module Recovery {
  import opened Prelude
  import opened Markers
  import opened Scenarios
  import opened Fixtures
  import opened Records
  import opened Actions
  import opened Expected
  import opened Simulation

  // ----- Markers in the fold -----

  /** The markers of the first `k` events. */
  ghost function MarkersBefore(scenario: Scenario, k: nat): set<string>
    requires k <= |scenario.events|
  {
    set i | 0 <= i < k :: MarkerOf(scenario, scenario.events[i])
  }

  ghost predicate SummarizedAs(entry: ExpectedAttachment, description: string)
  {
    && Unmarked(description) && IsHex(entry.sha256)
    && entry.summary == RenderAttachmentSummary(description, entry.marker, entry.sha256)
  }

  ghost predicate Summarized(entry: ExpectedAttachment)
  {
    exists description :: SummarizedAs(entry, description)
  }

  /** Every marker in the folded state was written by one of the first `k` events. */
  ghost predicate WellMarked(scenario: Scenario, k: nat, exp: Expectation)
    requires k <= |scenario.events|
  {
    && (forall a, c | a in exp.bugs && c in exp.bugs[a].comments && c.marker.Some? ::
          c.marker.value in MarkersBefore(scenario, k))
    && (forall x | x in exp.attachments ::
          exp.attachments[x].marker in MarkersBefore(scenario, k) && Summarized(exp.attachments[x]))
  }

  lemma StepWellMarked(scenario: Scenario, k: nat, exp: Expectation, next: Expectation)
    requires Replayable(scenario) && k < |scenario.events|
    requires Actors(scenario.events[k]) <= scenario.emails.Keys && Applicable(exp, scenario.events[k])
    requires WellMarked(scenario, k, exp)
    requires next == FoldStep(scenario, exp, scenario.events[k])
    ensures WellMarked(scenario, k + 1, next)
  {
    var event := scenario.events[k];
    assert EventResolves(scenario.emails, scenario.events, k) && Supported(scenario, event);
    assert MarkerOf(scenario, event) in MarkersBefore(scenario, k + 1);
    forall a, c | a in next.bugs && c in next.bugs[a].comments && c.marker.Some?
      ensures c.marker.value in MarkersBefore(scenario, k + 1)
    {
      StepComments(scenario, exp, event, a);
    }
    forall x | x in next.attachments
      ensures next.attachments[x].marker in MarkersBefore(scenario, k + 1) && Summarized(next.attachments[x])
    {
      StepSummaries(scenario, exp, event, x);
    }
  }

  /** Each comment after a step was there before, carries the event's marker, or has none. */
  lemma StepComments(scenario: Scenario, exp: Expectation, event: Event, a: string)
    requires Actors(event) <= scenario.emails.Keys && Applicable(exp, event)
    requires a in FoldStep(scenario, exp, event).bugs
    ensures forall c | c in FoldStep(scenario, exp, event).bugs[a].comments ::
      || (a in exp.bugs && c in exp.bugs[a].comments)
      || c.marker.None? || c.marker == Some(MarkerOf(scenario, event))
  {
    match event.action
    case BugCreate(bug, _, _, _, _, _, _, dependsOn, blocks) =>
      OptionalLinksFrame(exp.bugs[bug := NewBug(scenario, event)], bug, Some(dependsOn), Some(blocks));
    case BugUpdate(bug, _, _, _, _, _, dependsOn, blocks, _) =>
      OptionalLinksFrame(exp.bugs[bug := UpdatedNames(scenario, event, exp.bugs[bug])], bug, dependsOn, blocks);
    case _ =>
  }

  lemma StepSummaries(scenario: Scenario, exp: Expectation, event: Event, x: string)
    requires Actors(event) <= scenario.emails.Keys && Applicable(exp, event)
    requires ShapeOk(event) && Supported(scenario, event)
    requires x in FoldStep(scenario, exp, event).attachments
    requires x in exp.attachments ==> Summarized(exp.attachments[x])
    ensures Summarized(FoldStep(scenario, exp, event).attachments[x])
    ensures FoldStep(scenario, exp, event).attachments[x].marker
         == if event.action.BugAttach? && event.action.attachment == x then MarkerOf(scenario, event)
            else exp.attachments[x].marker
  {
    var entry := FoldStep(scenario, exp, event).attachments[x];
    if event.action.BugAttach? && event.action.attachment == x {
      assert SummarizedAs(entry, event.action.description);
    } else if event.action.AttachmentUpdate? && event.action.attachment == x {
      var description :| SummarizedAs(exp.attachments[x], description);
      if event.action.newDescription.Some? {
        assert SummarizedAs(entry, event.action.newDescription.value);
      } else {
        assert SummarizedAs(entry, description);
      }
    }
  }

  lemma NothingMarked(scenario: Scenario)
    ensures WellMarked(scenario, 0, Fold(scenario, 0))
  {
  }

  lemma {:induction false} FoldWellMarked(scenario: Scenario, k: nat)
    requires Replayable(scenario) && k <= |scenario.events|
    ensures WellMarked(scenario, k, Fold(scenario, k))
  {
    hide WellMarked, Fold, FoldStep, Applicable, AllSupported, DistinctAliases;
    if k == 0 {
      NothingMarked(scenario);
    } else {
      FoldWellMarked(scenario, k - 1);
      FoldNext(scenario, k - 1);
      StepWellMarked(scenario, k - 1, Fold(scenario, k - 1), Fold(scenario, k));
    }
  }

  /** A later event's marker is not yet written, and an earlier one is one event's alone. */
  lemma MarkerNotYetWritten(scenario: Scenario, k: nat, j: nat)
    requires Replayable(scenario) && k <= j < |scenario.events|
    ensures MarkerOf(scenario, scenario.events[j]) !in MarkersBefore(scenario, k)
  {
    assert EventResolves(scenario.emails, scenario.events, j);
    forall i | 0 <= i < k
      ensures MarkerOf(scenario, scenario.events[j]) != MarkerOf(scenario, scenario.events[i])
    {
      assert EventResolves(scenario.emails, scenario.events, i);
      if MarkerOf(scenario, scenario.events[j]) == MarkerOf(scenario, scenario.events[i]) {
        MarkerInjective(scenario.name, scenario.events[j].name, scenario.name, scenario.events[i].name);
      }
    }
  }

  // ----- Counting markers in what the server returns -----

  lemma {:induction false} MarkerHitsOrdered(texts: seq<string>, token: string)
    ensures Distinct(MarkerHits(texts, token))
  {
    if texts != [] {
      MarkerHitsOrdered(texts[..|texts| - 1], token);
      var rest := MarkerHits(texts[..|texts| - 1], token);
      assert forall i | 0 <= i < |rest| :: rest[i] in rest && rest[i] < |texts| - 1;
    }
  }

  lemma OneHit(texts: seq<string>, token: string, at: nat)
    requires at < |texts| && Contains(texts[at], token)
    requires forall k | 0 <= k < |texts| && k != at :: !Contains(texts[k], token)
    ensures MarkerHits(texts, token) == [at]
  {
    var hits := MarkerHits(texts, token);
    MarkerHitsOrdered(texts, token);
    assert at in hits;
    assert |hits| > 1 ==> hits[0] != hits[1];
    assert forall i | 0 <= i < |hits| :: hits[i] in hits;
    assert forall h | h in hits :: h == at;
  }

  lemma NoHits(texts: seq<string>, token: string)
    requires forall k | 0 <= k < |texts| :: !Contains(texts[k], token)
    ensures MarkerHits(texts, token) == []
  {
    var hits := MarkerHits(texts, token);
    assert forall h :: h !in hits;
  }

  /** A thread entry answers an event's marker query exactly when the fold put that marker there. */
  lemma CommentHit(scenario: Scenario, k: nat, expected: ExpectedComment, comment: Comment, j: nat)
    requires Replayable(scenario) && k <= |scenario.events| && j < |scenario.events|
    requires CommentAgrees(scenario, expected, comment)
    requires expected.marker.Some? ==> expected.marker.value in MarkersBefore(scenario, k)
    ensures Contains(comment.text, Token(MarkerOf(scenario, scenario.events[j])))
       <==> expected.marker == Some(MarkerOf(scenario, scenario.events[j]))
  {
    var event := scenario.events[j];
    assert EventResolves(scenario.emails, scenario.events, j);
    if expected.marker.None? {
      UnmarkedHasNoToken(comment.text, scenario.name, event.name);
    } else {
      var i :| 0 <= i < k && expected.marker.value == MarkerOf(scenario, scenario.events[i]);
      assert EventResolves(scenario.emails, scenario.events, i);
      var body := comment.text[..|comment.text| - |expected.marker.value| - 4];
      CommentMarkerUnique(body, scenario.name, scenario.events[i].name, scenario.name, event.name);
      if MarkerOf(scenario, scenario.events[i]) == MarkerOf(scenario, event) {
        MarkerInjective(scenario.name, scenario.events[i].name, scenario.name, event.name);
      }
    }
  }

  lemma SummaryHit(scenario: Scenario, k: nat, renamed: bool, expected: ExpectedAttachment, summary: string, j: nat)
    requires Replayable(scenario) && k <= |scenario.events| && j < |scenario.events|
    requires SummaryAgrees(renamed, expected, summary)
    requires expected.marker in MarkersBefore(scenario, k) && Summarized(expected)
    ensures Contains(summary, Token(MarkerOf(scenario, scenario.events[j])))
       <==> !renamed && expected.marker == MarkerOf(scenario, scenario.events[j])
  {
    var event := scenario.events[j];
    assert EventResolves(scenario.emails, scenario.events, j);
    if renamed {
      UnmarkedHasNoToken(summary, scenario.name, event.name);
    } else {
      var description :| SummarizedAs(expected, description);
      var i :| 0 <= i < k && expected.marker == MarkerOf(scenario, scenario.events[i]);
      assert EventResolves(scenario.emails, scenario.events, i);
      SummaryMarkerUnique(description, scenario.name, scenario.events[i].name, expected.sha256,
                          scenario.name, event.name);
      if MarkerOf(scenario, scenario.events[i]) == MarkerOf(scenario, event) {
        MarkerInjective(scenario.name, scenario.events[i].name, scenario.name, event.name);
      }
    }
  }

  // ----- The server at a point of the scenario -----

  /** Attachments whose description one of the first `k` events replaced. */
  function Renamed(events: seq<Event>, k: nat): set<string>
    requires k <= |events|
  {
    if k == 0 then {}
    else
      var a := events[k - 1].action;
      if a.AttachmentUpdate? && a.newDescription.Some? then Renamed(events, k - 1) + {a.attachment}
      else Renamed(events, k - 1)
  }

  /** The server aliases of the bugs the first `k` events create. */
  function AliasTable(events: seq<Event>, k: nat): map<string, string>
    requires k <= |events|
  {
    if k == 0 then map[]
    else if IsCreate(events[k - 1]) then
      AliasTable(events, k - 1)[events[k - 1].action.serverAlias := events[k - 1].action.bug]
    else AliasTable(events, k - 1)
  }

  /** Whether, after `k` events, the flag may still be pending on that login: some event asked for
      it, and every later event on the flag could have been taken as already satisfied. */
  predicate MayHold(scenario: Scenario, k: nat, bug: string, flagType: string, login: string)
    requires k <= |scenario.events|
  {
    if k == 0 then false
    else
      var a := scenario.events[k - 1].action;
      if !a.BugFlag? || a.bug != bug || a.flagType != flagType then MayHold(scenario, k - 1, bug, flagType, login)
      else if a.requestee.Some? then
        a.requestee.value in scenario.emails && scenario.emails[a.requestee.value] == login
      else a.status == '?' && MayHold(scenario, k - 1, bug, flagType, login)
  }

  /** The aliases of the bugs created so far lead to them, and those still to come are free. */
  ghost predicate AliasesAt(events: seq<Event>, k: nat, ids: IdTable, aliases: map<string, int>)
    requires k <= |events|
  {
    var table := AliasTable(events, k);
    && (forall s | s in table :: s in aliases && BugRef(table[s]) in ids && aliases[s] == ids[BugRef(table[s])])
    && forall i | k <= i < |events| && IsCreate(events[i]) :: events[i].action.serverAlias !in aliases
  }

  ghost predicate FlagsExplained(scenario: Scenario, k: nat, bug: string, flags: map<string, Flag>)
    requires k <= |scenario.events|
  {
    forall t | t in flags && flags[t].requestee.Some? ::
      flags[t].status == '?' && MayHold(scenario, k, bug, t, flags[t].requestee.value)
  }

  ghost predicate FlagsAt(scenario: Scenario, k: nat, ids: IdTable, bugs: map<int, Bug>)
    requires k <= |scenario.events|
  {
    forall r: Ref | r in ids && r.BugRef? && ids[r] in bugs :: FlagsExplained(scenario, k, r.name, bugs[ids[r]].flags)
  }

  /** The logins that may be missing from a bug's CC after `k` events: expected there only because of a
      flag request that could have been taken as already pending. */
  function Missing(scenario: Scenario, k: nat): set<(string, string)>
    requires k <= |scenario.events|
  {
    if k == 0 then {} else MissingAfter(Missing(scenario, k - 1), scenario, k - 1)
  }

  function MissingAfter(missing: set<(string, string)>, scenario: Scenario, k: nat): set<(string, string)>
    requires k < |scenario.events|
  {
    match scenario.events[k].action
    case BugCreate(bug, _, _, _, _, _, _, _, _) => OtherBugs(missing, bug)
    case BugUpdate(bug, _, _, cc, _, _, _, _, _) => if cc.Some? then OtherBugs(missing, bug) else missing
    case BugFlag(bug, flagType, _, requestee) =>
      if requestee.None? || requestee.value !in scenario.emails then missing
      else
        var login := scenario.emails[requestee.value];
        if !MayHold(scenario, k, bug, flagType, login) then missing - {(bug, login)}
        else if bug in Fold(scenario, k).bugs && login !in Fold(scenario, k).bugs[bug].cc then missing + {(bug, login)}
        else missing
    case _ => missing
  }

  /** An update that declares its bug's self-edge on one side only. */
  predicate OneSided(event: Event)
  {
    var a := event.action;
    && a.BugUpdate? && a.newDependsOn.Some? && a.newBlocks.Some?
    && (a.bug in a.newDependsOn.value) != (a.bug in a.newBlocks.value)
  }

  /** The bugs whose self-edge may stand the other way after `k` events. */
  function Loose(events: seq<Event>, k: nat): set<string>
    requires k <= |events|
  {
    if k == 0 then {}
    else
      var a := events[k - 1].action;
      if a.BugCreate? then Loose(events, k - 1) - {a.bug}
      else if OneSided(events[k - 1]) then Loose(events, k - 1) + {a.bug}
      else if a.BugUpdate? && (a.newDependsOn.Some? || a.newBlocks.Some?) then Loose(events, k - 1) - {a.bug}
      else Loose(events, k - 1)
  }

  /** What can have gone apart after `k` events, over all runs. */
  function Current(scenario: Scenario, k: nat): Gaps
    requires k <= |scenario.events|
  {
    Gaps(Missing(scenario, k), {}, Loose(scenario.events, k), {}, Renamed(scenario.events, k))
  }

  /** The server is where the first `k` events put it, but for the gaps any run can have. */
  ghost predicate At(scenario: Scenario, k: nat, ids: IdTable, fixture: Fixture)
    requires k <= |scenario.events|
  {
    && Agrees(Current(scenario, k), scenario, ids, Fold(scenario, k), fixture)
    && AliasesAt(scenario.events, k, ids, fixture.aliases)
    && FlagsAt(scenario, k, ids, fixture.bugs)
  }

  lemma AtStart(scenario: Scenario, fixture: Fixture)
    requires Pristine(scenario.events, fixture)
    ensures At(scenario, 0, map[], fixture)
  {
  }

  lemma IdsAreCreated(scenario: Scenario, k: nat, ids: IdTable, fixture: Fixture)
    requires Replayable(scenario) && k <= |scenario.events| && At(scenario, k, ids, fixture)
    ensures ids.Keys == CreatedBefore(scenario.events, k)
  {
    FoldSound(scenario, k);
    forall r: Ref ensures r in ids.Keys <==> r in CreatedBefore(scenario.events, k) {
      match r
      case BugRef(a) => assert a in Fold(scenario, k).bugs <==> BugRef(a) in ids;
      case AttachmentRef(x) => assert x in Fold(scenario, k).attachments <==> AttachmentRef(x) in ids;
    }
  }

  lemma ReadyAt(scenario: Scenario, k: nat, ids: IdTable, fixture: Fixture)
    requires Replayable(scenario) && k < |scenario.events| && At(scenario, k, ids, fixture)
    ensures Ready(scenario, ids, Fold(scenario, k), scenario.events[k])
  {
    hide At, Sound, Fold, Creates, Uses;
    IdsAreCreated(scenario, k, ids, fixture);
    FoldSound(scenario, k);
    LoadedAt(scenario, k);
  }

  /** What loading and `check_supported` settle about one event. */
  lemma LoadedAt(scenario: Scenario, k: nat)
    requires Replayable(scenario) && k < |scenario.events|
    ensures IsSlug(scenario.name) && ShapeOk(scenario.events[k]) && Supported(scenario, scenario.events[k])
    ensures Resolvable(scenario, scenario.events[k], CreatedBefore(scenario.events, k))
  {
    assert EventResolves(scenario.emails, scenario.events, k);
  }

  /** After an idempotent event, the same event is still one replay could send. */
  lemma ReadyAgain(scenario: Scenario, k: nat, ids: IdTable, fixture: Fixture)
    requires Replayable(scenario) && k < |scenario.events| && IsIdempotent(scenario.events[k])
    requires At(scenario, k + 1, ids, fixture)
    ensures Ready(scenario, ids, Fold(scenario, k + 1), scenario.events[k])
  {
    hide At, Sound, Fold, Creates, Uses, CreatedBefore, WellFormed, AllSupported, DistinctAliases, IsIdempotent,
      Resolvable, ShapeOk, Supported;
    IdsAreCreated(scenario, k + 1, ids, fixture);
    IdempotentCreatesNothing(scenario.events, k);
    FoldSound(scenario, k + 1);
    LoadedAt(scenario, k);
  }

  lemma IdempotentCreatesNothing(events: seq<Event>, k: nat)
    requires k < |events| && IsIdempotent(events[k])
    ensures CreatedBefore(events, k + 1) == CreatedBefore(events, k)
  {
  }

  // ----- Flags -----

  lemma ExplainedElsewhere(scenario: Scenario, k: nat, bug: string, flags: map<string, Flag>)
    requires k < |scenario.events|
    requires scenario.events[k].action.BugFlag? ==> scenario.events[k].action.bug != bug
    requires FlagsExplained(scenario, k, bug, flags)
    ensures FlagsExplained(scenario, k + 1, bug, flags)
  {
  }

  lemma ExplainedCommit(scenario: Scenario, k: nat, q: nat, b: Bug)
    requires k < |scenario.events| && k <= q <= k + 1
    requires scenario.events[k].action.BugFlag? && ShapeOk(scenario.events[k])
    requires Actors(scenario.events[k]) <= scenario.emails.Keys
    requires FlagsExplained(scenario, q, scenario.events[k].action.bug, b.flags)
    ensures var a := scenario.events[k].action;
      FlagsExplained(scenario, k + 1, a.bug,
                     ApplyFlag(b, a.flagType, a.status, RequesteeEmail(scenario, scenario.events[k])).flags)
  {
  }

  /** A flag event taken as already satisfied leaves every pending request explained. */
  lemma ExplainedAdvance(scenario: Scenario, k: nat, flags: map<string, Flag>)
    requires k < |scenario.events|
    requires scenario.events[k].action.BugFlag? && ShapeOk(scenario.events[k])
    requires Actors(scenario.events[k]) <= scenario.emails.Keys
    requires FlagsExplained(scenario, k, scenario.events[k].action.bug, flags)
    requires var a := scenario.events[k].action;
      FlagMatches(flags, a.flagType, a.status, RequesteeEmail(scenario, scenario.events[k]))
    ensures FlagsExplained(scenario, k + 1, scenario.events[k].action.bug, flags)
  {
  }

  /** Whether committing the event's request moves flags and aliases as its kind says. */
  ghost predicate FlagsMoved(scenario: Scenario, ids: IdTable, event: Event, fixture: Fixture, next: Fixture)
    requires Actors(event) <= scenario.emails.Keys
  {
    && (event.action.BugFlag? ==> BugRef(event.action.bug) in ids)
    && (forall k | k in fixture.bugs && (IsCreate(event) ==> k != fixture.nextBug) ::
         && k in next.bugs
         && next.bugs[k].flags ==
              if event.action.BugFlag? && k == ids[BugRef(event.action.bug)] then
                ApplyFlag(fixture.bugs[k], event.action.flagType, event.action.status,
                          RequesteeEmail(scenario, event)).flags
              else fixture.bugs[k].flags)
    && (IsCreate(event) ==> fixture.nextBug in next.bugs && next.bugs[fixture.nextBug].flags == map[])
    && next.aliases == if IsCreate(event) then fixture.aliases[event.action.serverAlias := fixture.nextBug]
                       else fixture.aliases
  }

  lemma CreateFlags(scenario: Scenario, ids: IdTable, event: Event, fixture: Fixture, author: string)
    requires event.action.BugCreate? && Actors(event) <= scenario.emails.Keys
    requires Build(scenario, ids, event, fixture).Some?
    requires Accepts(fixture, Build(scenario, ids, event, fixture).value)
    ensures FlagsMoved(scenario, ids, event, fixture,
                       Commit(fixture, author, Build(scenario, ids, event, fixture).value))
  {
    CreateRequest(scenario, ids, event, fixture, author);
    EditsFrame(fixture.bugs[fixture.nextBug := CreatedBug(scenario, event, author)], fixture.nextBug,
               DeltaOf(ResolveBugs(ids, event.action.dependsOn).value, []),
               DeltaOf(ResolveBugs(ids, event.action.blocks).value, []));
  }

  lemma UpdateFlags(scenario: Scenario, ids: IdTable, event: Event, fixture: Fixture, author: string)
    requires event.action.BugUpdate? && Actors(event) <= scenario.emails.Keys
    requires Build(scenario, ids, event, fixture).Some?
    ensures Accepts(fixture, Build(scenario, ids, event, fixture).value)
    ensures FlagsMoved(scenario, ids, event, fixture,
                       Commit(fixture, author, Build(scenario, ids, event, fixture).value))
  {
    UpdateRequest(scenario, ids, event, fixture, author);
    var request := Build(scenario, ids, event, fixture).value;
    EditsFrame(fixture.bugs[request.bug := EditedBug(event, fixture.bugs[request.bug], request)], request.bug,
               request.dependsOnDelta, request.blocksDelta);
  }

  /** What committing an event's request does to flags and aliases. */
  lemma CommittedFlags(scenario: Scenario, ids: IdTable, event: Event, fixture: Fixture, author: string)
    requires Actors(event) <= scenario.emails.Keys
    requires Build(scenario, ids, event, fixture).Some?
    requires Accepts(fixture, Build(scenario, ids, event, fixture).value)
    ensures FlagsMoved(scenario, ids, event, fixture,
                       Commit(fixture, author, Build(scenario, ids, event, fixture).value))
  {
    hide Commit, Accepts;
    match event.action
    case BugCreate(_, _, _, _, _, _, _, _, _) => CreateFlags(scenario, ids, event, fixture, author);
    case BugUpdate(_, _, _, _, _, _, _, _, _) => UpdateFlags(scenario, ids, event, fixture, author);
    case BugAttach(_, _, _, _, _, _) => UploadRequest(scenario, ids, event, fixture, author);
    case AttachmentUpdate(_, _, _) => AttachmentUpdateRequest(scenario, ids, event, fixture, author);
    case _ => OneBugRequest(scenario, ids, event, fixture, author);
  }

  /** Flags stay explained across a committed request, first or repeated. */
  lemma FlagsAfterCommit(scenario: Scenario, k: nat, q: nat, ids: IdTable, fixture: Fixture, author: string)
    requires k < |scenario.events| && k <= q <= k + 1 && OneToOne(ids)
    requires var event := scenario.events[k];
      && ShapeOk(event) && Actors(event) <= scenario.emails.Keys
      && Build(scenario, ids, event, fixture).Some?
      && Accepts(fixture, Build(scenario, ids, event, fixture).value)
    requires forall r | r in ids && r.BugRef? :: ids[r] in fixture.bugs && ids[r] < fixture.nextBug
    requires FlagsAt(scenario, q, ids, fixture.bugs)
    ensures var event := scenario.events[k];
      FlagsAt(scenario, k + 1, ids + ResolvedIds(event, fixture),
              Commit(fixture, author, Build(scenario, ids, event, fixture).value).bugs)
  {
    var event := scenario.events[k];
    CommittedFlags(scenario, ids, event, fixture, author);
    var ids' := ids + ResolvedIds(event, fixture);
    var next := Commit(fixture, author, Build(scenario, ids, event, fixture).value);
    forall r: Ref | r in ids' && r.BugRef? && ids'[r] in next.bugs
      ensures FlagsExplained(scenario, k + 1, r.name, next.bugs[ids'[r]].flags)
    {
      if r in ResolvedIds(event, fixture) {
      } else {
        assert FlagsExplained(scenario, q, r.name, fixture.bugs[ids[r]].flags);
        if event.action.BugFlag? && r == BugRef(event.action.bug) {
          ExplainedCommit(scenario, k, q, fixture.bugs[ids[r]]);
        } else {
          if event.action.BugFlag? { assert Apart(ids, r, BugRef(event.action.bug)); }
          if q == k { ExplainedElsewhere(scenario, k, r.name, fixture.bugs[ids[r]].flags); }
        }
      }
    }
  }

  // ----- Moving from one point to the next -----

  /** The first commit of an event, from whatever gaps there are. */
  lemma AgreesAfterCommit(gaps: Gaps, scenario: Scenario, k: nat, ids: IdTable, fixture: Fixture)
    requires Replayable(scenario) && k < |scenario.events|
    requires At(scenario, k, ids, fixture) && Agrees(gaps, scenario, ids, Fold(scenario, k), fixture)
    requires EventResolves(scenario.emails, scenario.events, k) && Applicable(Fold(scenario, k), scenario.events[k])
    requires Build(scenario, ids, scenario.events[k], fixture).Some?
    requires Accepts(fixture, Build(scenario, ids, scenario.events[k], fixture).value)
    ensures var event := scenario.events[k];
      Agrees(After(gaps, scenario, Fold(scenario, k), event), scenario, ids + ResolvedIds(event, fixture),
             Fold(scenario, k + 1),
             Commit(fixture, scenario.emails[event.actor], Build(scenario, ids, event, fixture).value))
  {
    hide At, Agrees, Build, Accepts, Commit, After, Fold, Ready;
    ReadyAt(scenario, k, ids, fixture);
    CommitAgrees(gaps, scenario, ids, Fold(scenario, k), scenario.events[k], fixture);
    FoldNext(scenario, k);
  }

  /** A further commit of an idempotent event. */
  lemma AgreesAfterRepeat(gaps: Gaps, scenario: Scenario, k: nat, ids: IdTable, fixture: Fixture)
    requires Replayable(scenario) && k < |scenario.events| && IsIdempotent(scenario.events[k])
    requires At(scenario, k + 1, ids, fixture) && Agrees(gaps, scenario, ids, Fold(scenario, k + 1), fixture)
    requires EventResolves(scenario.emails, scenario.events, k) && Applicable(Fold(scenario, k + 1), scenario.events[k])
    requires Build(scenario, ids, scenario.events[k], fixture).Some?
    requires Accepts(fixture, Build(scenario, ids, scenario.events[k], fixture).value)
    ensures var event := scenario.events[k];
      Agrees(After(gaps, scenario, Fold(scenario, k + 1), event), scenario, ids, Fold(scenario, k + 1),
             Commit(fixture, scenario.emails[event.actor], Build(scenario, ids, event, fixture).value))
  {
    hide At, Agrees, Build, Accepts, Commit, After, Fold, Ready, FoldStep;
    ReadyAgain(scenario, k, ids, fixture);
    CommitAgrees(gaps, scenario, ids, Fold(scenario, k + 1), scenario.events[k], fixture);
    FoldAgain(scenario, k);
    ResolvedIdsAdded(ids, scenario.events[k], fixture);
  }

  /** The analysis allows for every commit, the first or a further one. */
  lemma CommitIsAllowed(scenario: Scenario, k: nat, exp: Expectation)
    requires k < |scenario.events| && EventResolves(scenario.emails, scenario.events, k)
    requires Applicable(exp, scenario.events[k])
    ensures Wider(After(Current(scenario, k), scenario, exp, scenario.events[k]), Current(scenario, k + 1))
    ensures IsIdempotent(scenario.events[k]) ==>
      Wider(After(Current(scenario, k + 1), scenario, exp, scenario.events[k]), Current(scenario, k + 1))
  {
    var event := scenario.events[k];
    if event.action.BugUpdate? {
      var a := event.action;
      LooseAllows(Current(scenario, k), scenario.events, k, a.bug in exp.bugs[a.bug].dependsOn);
      LooseAllows(Current(scenario, k + 1), scenario.events, k, a.bug in exp.bugs[a.bug].dependsOn);
    }
  }

  lemma LooseAllows(gaps: Gaps, events: seq<Event>, k: nat, folded: bool)
    requires k < |events| && events[k].action.BugUpdate?
    requires gaps.maySlip == Loose(events, k) || gaps.maySlip == Loose(events, k + 1)
    requires gaps.mustSlip == {}
    ensures var a := events[k].action;
      && Relinked(gaps, folded, a.bug, a.newDependsOn, a.newBlocks).maySlip <= Loose(events, k + 1)
  {
  }

  lemma NamesAfterCommit(scenario: Scenario, k: nat, ids: IdTable, fixture: Fixture)
    requires Replayable(scenario) && k < |scenario.events|
    requires At(scenario, k, ids, fixture)
    requires EventResolves(scenario.emails, scenario.events, k)
    requires Build(scenario, ids, scenario.events[k], fixture).Some?
    requires Accepts(fixture, Build(scenario, ids, scenario.events[k], fixture).value)
    ensures var event := scenario.events[k];
      var next := Commit(fixture, scenario.emails[event.actor], Build(scenario, ids, event, fixture).value);
      && AliasesAt(scenario.events, k + 1, ids + ResolvedIds(event, fixture), next.aliases)
      && FlagsAt(scenario, k + 1, ids + ResolvedIds(event, fixture), next.bugs)
  {
    var event := scenario.events[k];
    IdsAreCreated(scenario, k, ids, fixture);
    CommittedFlags(scenario, ids, event, fixture, scenario.emails[event.actor]);
    FlagsAfterCommit(scenario, k, k, ids, fixture, scenario.emails[event.actor]);
    AliasesAfterCommit(scenario.events, k, ids, fixture);
  }

  /** Committing the next event's request, the first time. */
  lemma AtCommit(scenario: Scenario, k: nat, ids: IdTable, fixture: Fixture)
    requires Replayable(scenario) && k < |scenario.events|
    requires At(scenario, k, ids, fixture)
    requires EventResolves(scenario.emails, scenario.events, k)
    requires Build(scenario, ids, scenario.events[k], fixture).Some?
    requires Accepts(fixture, Build(scenario, ids, scenario.events[k], fixture).value)
    ensures var event := scenario.events[k];
      At(scenario, k + 1, ids + ResolvedIds(event, fixture),
         Commit(fixture, scenario.emails[event.actor], Build(scenario, ids, event, fixture).value))
  {
    hide Agrees, Build, Accepts, Commit, After, Fold, Current, AliasesAt, FlagsAt, ResolvedIds, Wider;
    var event := scenario.events[k];
    FoldNext(scenario, k);
    AgreesAfterCommit(Current(scenario, k), scenario, k, ids, fixture);
    CommitIsAllowed(scenario, k, Fold(scenario, k));
    AgreesWider(After(Current(scenario, k), scenario, Fold(scenario, k), event), Current(scenario, k + 1), scenario,
                ids + ResolvedIds(event, fixture), Fold(scenario, k + 1),
                Commit(fixture, scenario.emails[event.actor], Build(scenario, ids, event, fixture).value));
    NamesAfterCommit(scenario, k, ids, fixture);
  }

  lemma AliasesAfterCommit(events: seq<Event>, k: nat, ids: IdTable, fixture: Fixture)
    requires k < |events| && AliasesAt(events, k, ids, fixture.aliases) && DistinctAliases(events)
    requires Creates(events[k]) !! ids.Keys
    ensures AliasesAt(events, k + 1, ids + ResolvedIds(events[k], fixture),
      if IsCreate(events[k]) then fixture.aliases[events[k].action.serverAlias := fixture.nextBug] else fixture.aliases)
  {
    if IsCreate(events[k]) { assert BugRef(events[k].action.bug) in Creates(events[k]); }
    if events[k].action.BugAttach? { assert AttachmentRef(events[k].action.attachment) in Creates(events[k]); }
  }

  lemma FoldAgain(scenario: Scenario, k: nat)
    requires Replayable(scenario) && k < |scenario.events| && IsIdempotent(scenario.events[k])
    ensures var event := scenario.events[k];
      && Actors(event) <= scenario.emails.Keys && Applicable(Fold(scenario, k + 1), event)
      && FoldStep(scenario, Fold(scenario, k + 1), event) == Fold(scenario, k + 1)
  {
    FoldNext(scenario, k);
    FoldSound(scenario, k);
    FoldStepTwice(scenario, Fold(scenario, k), scenario.events[k], CreatedBefore(scenario.events, k));
  }

  /** Committing an idempotent event's request again. */
  lemma AtCommitAgain(scenario: Scenario, k: nat, ids: IdTable, fixture: Fixture)
    requires Replayable(scenario) && k < |scenario.events|
    requires IsIdempotent(scenario.events[k])
    requires At(scenario, k + 1, ids, fixture)
    requires EventResolves(scenario.emails, scenario.events, k)
    requires Build(scenario, ids, scenario.events[k], fixture).Some?
    requires Accepts(fixture, Build(scenario, ids, scenario.events[k], fixture).value)
    ensures var event := scenario.events[k];
      At(scenario, k + 1, ids,
         Commit(fixture, scenario.emails[event.actor], Build(scenario, ids, event, fixture).value))
  {
    var event := scenario.events[k];
    hide Agrees, Build, Accepts, Commit, After, Fold, Current, Wider, AliasesAt, FlagsAt;
    var author := scenario.emails[event.actor];
    FoldAgain(scenario, k);
    AgreesAfterRepeat(Current(scenario, k + 1), scenario, k, ids, fixture);
    CommitIsAllowed(scenario, k, Fold(scenario, k + 1));
    AgreesWider(After(Current(scenario, k + 1), scenario, Fold(scenario, k + 1), event), Current(scenario, k + 1),
                scenario, ids, Fold(scenario, k + 1),
                Commit(fixture, author, Build(scenario, ids, event, fixture).value));
    NamesAfterRepeat(scenario, k, ids, fixture);
  }

  lemma NamesAfterRepeat(scenario: Scenario, k: nat, ids: IdTable, fixture: Fixture)
    requires Replayable(scenario) && k < |scenario.events| && IsIdempotent(scenario.events[k])
    requires At(scenario, k + 1, ids, fixture)
    requires EventResolves(scenario.emails, scenario.events, k)
    requires Build(scenario, ids, scenario.events[k], fixture).Some?
    requires Accepts(fixture, Build(scenario, ids, scenario.events[k], fixture).value)
    ensures var event := scenario.events[k];
      var next := Commit(fixture, scenario.emails[event.actor], Build(scenario, ids, event, fixture).value);
      && AliasesAt(scenario.events, k + 1, ids, next.aliases) && FlagsAt(scenario, k + 1, ids, next.bugs)
  {
    var event := scenario.events[k];
    var author := scenario.emails[event.actor];
    ResolvedIdsAdded(ids, event, fixture);
    FlagsAfterCommit(scenario, k, k + 1, ids, fixture, author);
    CommittedFlags(scenario, ids, event, fixture, author);
  }

  // ----- An idempotent event that reconciliation finds already satisfied -----

  lemma {:induction false} NothingLeft<T(!new)>(list: seq<T>, drop: seq<T>)
    requires forall x | x in list :: x in drop
    ensures Without(list, drop) == []
  {
    if list != [] { NothingLeft(list[1..], drop); }
  }

  lemma SilentDelta<T(!new)>(declared: Option<seq<T>>, observed: seq<T>)
    requires OptionalMatches(declared, observed)
    ensures OptionalDelta(declared, observed) == NoDelta()
  {
    if declared.Some? {
      forall x | x in declared.value ensures x in observed { assert x in Elements(observed); }
      forall x | x in observed ensures x in declared.value { assert x in Elements(declared.value); }
      NothingLeft(declared.value, observed);
      NothingLeft(observed, declared.value);
    }
  }

  lemma MatchedUpdateBuilds(scenario: Scenario, ids: IdTable, event: Event, fixture: Fixture)
    requires event.action.BugUpdate? && Actors(event) <= scenario.emails.Keys
    requires BugRef(event.action.bug) in ids && ids[BugRef(event.action.bug)] in fixture.bugs
    requires UpdateMatches(scenario, ids, event, fixture.bugs[ids[BugRef(event.action.bug)]])
    ensures Build(scenario, ids, event, fixture).Some?
  {
  }

  lemma NothingEdited(event: Event, observed: Bug, request: Request)
    requires event.action.BugUpdate? && request.UpdateBug?
    requires observed.scalars + event.action.scalars == observed.scalars
    requires ApplyDelta(observed.cc, request.ccDelta) == observed.cc
    requires ApplyDelta(observed.keywords, request.keywordsDelta) == observed.keywords
    requires ApplyDelta(observed.groups, request.groupsDelta) == observed.groups
    requires request.dupe.Some? ==> observed.dupeOf == request.dupe
    ensures EditedBug(event, observed, request) == observed.(scalars := Marked(observed.scalars, request.dupe))
  {
  }

  /** The server once it has marked the event's bug as a duplicate, if the event says it is one: only
      what it drives itself may differ. */
  function Remarked(ids: IdTable, event: Event, fixture: Fixture): Fixture
  {
    var a := event.action;
    if !a.BugUpdate? || a.duplicateOf.None? || BugRef(a.bug) !in ids || ids[BugRef(a.bug)] !in fixture.bugs then fixture
    else
      var id := ids[BugRef(a.bug)];
      var b := fixture.bugs[id];
      fixture.(bugs := fixture.bugs[id := b.(scalars := Marked(b.scalars, Some(id)))])
  }

  /** What would be sent for an update that already reads back as declared. */
  lemma MatchedRequest(scenario: Scenario, ids: IdTable, event: Event, fixture: Fixture, author: string)
    requires event.action.BugUpdate? && Actors(event) <= scenario.emails.Keys
    requires BugRef(event.action.bug) in ids && ids[BugRef(event.action.bug)] in fixture.bugs
    requires UpdateMatches(scenario, ids, event, fixture.bugs[ids[BugRef(event.action.bug)]])
    requires Build(scenario, ids, event, fixture).Some?
    ensures var request := Build(scenario, ids, event, fixture).value;
      var observed := fixture.bugs[ids[BugRef(event.action.bug)]];
      && request.UpdateBug? && request.dependsOnDelta == NoDelta() && request.blocksDelta == NoDelta()
      && EditedBug(event, observed, request) == observed.(scalars := Marked(observed.scalars, request.dupe))
  {
    hide Build, Commit, Accepts, EditedBug, EditDependsOn, EditBlocks, Marked;
    var a := event.action;
    var observed := fixture.bugs[ids[BugRef(a.bug)]];
    UpdateRequest(scenario, ids, event, fixture, author);
    SilentDelta(OptionalEmails(scenario.emails, a.newCc), observed.cc);
    SilentDelta(a.newKeywords, observed.keywords);
    SilentDelta(a.newGroups, observed.groups);
    SilentDelta(OptionalBugs(ids, a.newDependsOn).value, observed.dependsOn);
    SilentDelta(OptionalBugs(ids, a.newBlocks).value, observed.blocks);
    WithoutNothing(observed.cc);
    WithoutNothing(observed.keywords);
    WithoutNothing(observed.groups);
    assert observed.scalars + a.scalars == observed.scalars;
    NothingEdited(event, observed, Build(scenario, ids, event, fixture).value);
  }

  /** An update that already reads back as declared would change nothing if it were sent, but for what
      the server drives itself on a duplicate. */
  lemma MatchedUpdateIsSilent(scenario: Scenario, ids: IdTable, event: Event, fixture: Fixture, author: string)
    requires event.action.BugUpdate? && Actors(event) <= scenario.emails.Keys
    requires BugRef(event.action.bug) in ids && ids[BugRef(event.action.bug)] in fixture.bugs
    requires UpdateMatches(scenario, ids, event, fixture.bugs[ids[BugRef(event.action.bug)]])
    ensures Build(scenario, ids, event, fixture).Some?
    ensures Accepts(fixture, Build(scenario, ids, event, fixture).value)
    ensures Commit(fixture, author, Build(scenario, ids, event, fixture).value) == Remarked(ids, event, fixture)
  {
    hide Build, Commit, Accepts, UpdateMatches, EditedBug, EditDependsOn, EditBlocks, OptionalDelta;
    var id := ids[BugRef(event.action.bug)];
    MatchedUpdateBuilds(scenario, ids, event, fixture);
    UpdateRequest(scenario, ids, event, fixture, author);
    MatchedRequest(scenario, ids, event, fixture, author);
    assert fixture.bugs[id := fixture.bugs[id]] == fixture.bugs;
    NoEdits(Remarked(ids, event, fixture).bugs, id);
  }

  lemma MatchedFieldsAreSilent(scenario: Scenario, ids: IdTable, event: Event, fixture: Fixture, author: string)
    requires event.action.BugCustomFieldSet? && Actors(event) <= scenario.emails.Keys
    requires BugRef(event.action.bug) in ids && ids[BugRef(event.action.bug)] in fixture.bugs
    requires ScalarsMatch(event.action.values, fixture.bugs[ids[BugRef(event.action.bug)]].custom)
    ensures Build(scenario, ids, event, fixture).Some?
    ensures Accepts(fixture, Build(scenario, ids, event, fixture).value)
    ensures Commit(fixture, author, Build(scenario, ids, event, fixture).value) == fixture
  {
    var id := ids[BugRef(event.action.bug)];
    OneBugRequest(scenario, ids, event, fixture, author);
    assert fixture.bugs[id].custom + event.action.values == fixture.bugs[id].custom;
    assert fixture.bugs[id := fixture.bugs[id]] == fixture.bugs;
  }

  lemma MatchedAttachmentIsSilent(scenario: Scenario, ids: IdTable, event: Event, fixture: Fixture, author: string)
    requires event.action.AttachmentUpdate? && Actors(event) <= scenario.emails.Keys
    requires AttachmentRef(event.action.attachment) in ids
    requires ids[AttachmentRef(event.action.attachment)] in fixture.attachments
    requires var a := fixture.attachments[ids[AttachmentRef(event.action.attachment)]];
      && a.isObsolete == event.action.obsolete
      && (event.action.newDescription.Some? ==> a.summary == event.action.newDescription.value)
    ensures Build(scenario, ids, event, fixture).Some?
    ensures Accepts(fixture, Build(scenario, ids, event, fixture).value)
    ensures Commit(fixture, author, Build(scenario, ids, event, fixture).value) == fixture
  {
    var id := ids[AttachmentRef(event.action.attachment)];
    AttachmentUpdateRequest(scenario, ids, event, fixture, author);
    assert Rewritten(event, fixture.attachments[id]) == fixture.attachments[id];
    assert fixture.attachments[id := fixture.attachments[id]] == fixture.attachments;
  }

  /** For every idempotent event but a flag, an `advance` verdict means that re-sending would change nothing, but
      for what the server drives itself on a duplicate. */
  lemma AdvanceIsSilent(scenario: Scenario, ids: IdTable, event: Event, fixture: Fixture, reply: Reply, author: string)
    requires IsIdempotent(event) && !event.action.BugFlag? && Actors(event) <= scenario.emails.Keys
    requires Reconcile(scenario, ids, event, fixture, reply).Some?
    requires Reconcile(scenario, ids, event, fixture, reply).value.next == Advance
    ensures Reconcile(scenario, ids, event, fixture, reply).value.ids == map[]
    ensures Build(scenario, ids, event, fixture).Some?
    ensures Accepts(fixture, Build(scenario, ids, event, fixture).value)
    ensures Commit(fixture, author, Build(scenario, ids, event, fixture).value) == Remarked(ids, event, fixture)
  {
    match event.action
    case BugUpdate(_, _, _, _, _, _, _, _, _) => MatchedUpdateIsSilent(scenario, ids, event, fixture, author);
    case BugCustomFieldSet(_, _) => MatchedFieldsAreSilent(scenario, ids, event, fixture, author);
    case AttachmentUpdate(_, _, _) => MatchedAttachmentIsSilent(scenario, ids, event, fixture, author);
  }

  /** The gaps after a flag event taken as satisfied without being sent: its requestee is missing from
      CC unless the fold already had it there. */
  function Unsent(gaps: Gaps, scenario: Scenario, exp: Expectation, event: Event): Gaps
    requires event.action.BugFlag? && Actors(event) <= scenario.emails.Keys && event.action.bug in exp.bugs
  {
    var login := RequesteeEmail(scenario, event);
    if login.None? || event.action.status == 'X' || login.value in exp.bugs[event.action.bug].cc then gaps
    else gaps.(mayMiss := gaps.mayMiss + {(event.action.bug, login.value)},
               mustMiss := gaps.mustMiss + {(event.action.bug, login.value)})
  }

  lemma FlagUnsent(gaps: Gaps, scenario: Scenario, ids: IdTable, exp: Expectation, event: Event, fixture: Fixture)
    requires event.action.BugFlag? && Actors(event) <= scenario.emails.Keys
    requires Agrees(gaps, scenario, ids, exp, fixture) && event.action.bug in exp.bugs
    ensures Agrees(Unsent(gaps, scenario, exp, event), scenario, ids,
      exp.(bugs := exp.bugs[event.action.bug := FlaggedBug(scenario, event, exp.bugs[event.action.bug])]), fixture)
  {
    hide Agrees, BugAgrees, Unsent, SameOutside;
    var bug := event.action.bug;
    AgreeingBug(gaps, scenario, ids, exp, fixture, bug);
    var id := ids[BugRef(bug)];
    var gaps' := Unsent(gaps, scenario, exp, event);
    FlaggedUnsent(gaps, scenario, ids, exp, event, fixture.bugs[id]);
    BugReplaced(gaps, gaps', scenario, ids, exp, fixture, bug, FlaggedBug(scenario, event, exp.bugs[bug]),
                fixture.bugs[id]);
    assert fixture.(bugs := fixture.bugs[id := fixture.bugs[id]]) == fixture;
  }

  lemma FlaggedUnsent(gaps: Gaps, scenario: Scenario, ids: IdTable, exp: Expectation, event: Event, bug: Bug)
    requires event.action.BugFlag? && Actors(event) <= scenario.emails.Keys && event.action.bug in exp.bugs
    requires BugAgrees(gaps, scenario, ids, event.action.bug, exp.bugs[event.action.bug], bug)
    ensures SameOutside(gaps, Unsent(gaps, scenario, exp, event), event.action.bug)
    ensures BugAgrees(Unsent(gaps, scenario, exp, event), scenario, ids, event.action.bug,
                      FlaggedBug(scenario, event, exp.bugs[event.action.bug]), bug)
  {
  }

  lemma FlagVerdict(scenario: Scenario, ids: IdTable, event: Event, fixture: Fixture, reply: Reply)
    requires event.action.BugFlag? && Actors(event) <= scenario.emails.Keys
    requires Reconcile(scenario, ids, event, fixture, reply).Some?
    ensures BugRef(event.action.bug) in ids
    ensures var id := ids[BugRef(event.action.bug)];
      var verdict := Reconcile(scenario, ids, event, fixture, reply).value;
      && verdict.ids == map[] && verdict.next != Stop
      && (verdict.next == Advance <==>
            reply == Answer && id in fixture.bugs
            && FlagMatches(fixture.bugs[id].flags, event.action.flagType, event.action.status,
                           RequesteeEmail(scenario, event)))
  {
  }

  /** An unsent flag event, from whatever gaps there are. */
  lemma AgreesUnsent(gaps: Gaps, scenario: Scenario, k: nat, ids: IdTable, fixture: Fixture)
    requires Replayable(scenario) && k < |scenario.events| && scenario.events[k].action.BugFlag?
    requires Actors(scenario.events[k]) <= scenario.emails.Keys
    requires scenario.events[k].action.bug in Fold(scenario, k).bugs
    requires Agrees(gaps, scenario, ids, Fold(scenario, k), fixture)
    ensures Agrees(Unsent(gaps, scenario, Fold(scenario, k), scenario.events[k]), scenario, ids, Fold(scenario, k + 1),
                   fixture)
  {
    hide Agrees, Unsent;
    FoldNext(scenario, k);
    FlagUnsent(gaps, scenario, ids, Fold(scenario, k), scenario.events[k], fixture);
  }

  /** The analysis allows for an unsent flag event whose request may be pending. */
  lemma UnsentIsAllowed(scenario: Scenario, k: nat)
    requires k < |scenario.events| && scenario.events[k].action.BugFlag?
    requires Actors(scenario.events[k]) <= scenario.emails.Keys
    requires scenario.events[k].action.bug in Fold(scenario, k).bugs
    requires var a := scenario.events[k].action;
      a.requestee.Some? && a.status != 'X' ==>
        MayHold(scenario, k, a.bug, a.flagType, scenario.emails[a.requestee.value])
    requires scenario.events[k].action.requestee.Some? ==> scenario.events[k].action.status != 'X'
    ensures Wider(Unsent(Current(scenario, k), scenario, Fold(scenario, k), scenario.events[k]),
                  Current(scenario, k + 1))
  {
    var event := scenario.events[k];
    assert event.action.requestee.Some? ==> event.action.requestee.value in Actors(event);
  }

  lemma FlagAdvanceAgrees(scenario: Scenario, k: nat, ids: IdTable, fixture: Fixture)
    requires Replayable(scenario) && k < |scenario.events|
    requires At(scenario, k, ids, fixture) && scenario.events[k].action.BugFlag?
    requires Actors(scenario.events[k]) <= scenario.emails.Keys && ShapeOk(scenario.events[k])
    requires scenario.events[k].action.bug in Fold(scenario, k).bugs
    requires var event := scenario.events[k];
      && BugRef(event.action.bug) in ids && ids[BugRef(event.action.bug)] in fixture.bugs
      && FlagMatches(fixture.bugs[ids[BugRef(event.action.bug)]].flags, event.action.flagType, event.action.status,
                     RequesteeEmail(scenario, event))
    ensures Agrees(Current(scenario, k + 1), scenario, ids, Fold(scenario, k + 1), fixture)
  {
    hide Agrees, Fold, Current, Unsent, Replayable, AliasesAt;
    var event := scenario.events[k];
    var bug := event.action.bug;
    assert FlagsExplained(scenario, k, BugRef(bug).name, fixture.bugs[ids[BugRef(bug)]].flags);
    UnsentIsAllowed(scenario, k);
    AgreesUnsent(Current(scenario, k), scenario, k, ids, fixture);
    AgreesWider(Unsent(Current(scenario, k), scenario, Fold(scenario, k), event), Current(scenario, k + 1), scenario,
                ids, Fold(scenario, k + 1), fixture);
  }

  lemma FlagAdvanceNames(scenario: Scenario, k: nat, ids: IdTable, fixture: Fixture)
    requires Replayable(scenario) && k < |scenario.events|
    requires At(scenario, k, ids, fixture) && scenario.events[k].action.BugFlag?
    requires Actors(scenario.events[k]) <= scenario.emails.Keys
    requires var event := scenario.events[k];
      && BugRef(event.action.bug) in ids && ids[BugRef(event.action.bug)] in fixture.bugs
      && FlagMatches(fixture.bugs[ids[BugRef(event.action.bug)]].flags, event.action.flagType, event.action.status,
                     RequesteeEmail(scenario, event))
    ensures AliasesAt(scenario.events, k + 1, ids, fixture.aliases)
    ensures FlagsAt(scenario, k + 1, ids, fixture.bugs)
  {
    var event := scenario.events[k];
    assert EventResolves(scenario.emails, scenario.events, k);
    forall r: Ref | r in ids && r.BugRef? && ids[r] in fixture.bugs
      ensures FlagsExplained(scenario, k + 1, r.name, fixture.bugs[ids[r]].flags)
    {
      assert FlagsExplained(scenario, k, r.name, fixture.bugs[ids[r]].flags);
      if r == BugRef(event.action.bug) {
        ExplainedAdvance(scenario, k, fixture.bugs[ids[r]].flags);
      } else {
        ExplainedElsewhere(scenario, k, r.name, fixture.bugs[ids[r]].flags);
      }
    }
  }

  /** An `advance` verdict on an idempotent event is right whether or not the event was ever
      committed: the server is already where the event leaves it. */
  lemma AtAdvance(scenario: Scenario, k: nat, ids: IdTable, fixture: Fixture, reply: Reply)
    requires Replayable(scenario) && k < |scenario.events|
    requires At(scenario, k, ids, fixture) && IsIdempotent(scenario.events[k])
    requires EventResolves(scenario.emails, scenario.events, k)
    requires Reconcile(scenario, ids, scenario.events[k], fixture, reply).Some?
    requires Reconcile(scenario, ids, scenario.events[k], fixture, reply).value.next == Advance
    ensures At(scenario, k + 1, ids, fixture)
  {
    var event := scenario.events[k];
    if event.action.BugFlag? {
      FlagVerdict(scenario, ids, event, fixture, reply);
      FlagAdvanceAgrees(scenario, k, ids, fixture);
      FlagAdvanceNames(scenario, k, ids, fixture);
    } else {
      AdvanceIsSilent(scenario, ids, event, fixture, reply, scenario.emails[event.actor]);
      AtCommit(scenario, k, ids, fixture);
      ResolvedIdsAdded(ids, event, fixture);
      RemarkedAt(scenario, k, ids, fixture);
    }
  }

  /** Where the server stands does not depend on whether it has marked a duplicate anew. */
  lemma RemarkedAt(scenario: Scenario, k: nat, ids: IdTable, fixture: Fixture)
    requires Replayable(scenario) && k < |scenario.events|
    requires At(scenario, k + 1, ids, Remarked(ids, scenario.events[k], fixture))
    ensures At(scenario, k + 1, ids, fixture)
  {
    hide Agrees, Fold, AliasesAt;
    var event, exp, remarked := scenario.events[k], Fold(scenario, k + 1), Remarked(ids, scenario.events[k], fixture);
    if remarked != fixture {
      var bug, id := event.action.bug, ids[BugRef(event.action.bug)];
      DuplicateUnasserted(scenario, k);
      AgreeingBug(Current(scenario, k + 1), scenario, ids, exp, remarked, bug);
      BugReplaced(Current(scenario, k + 1), Current(scenario, k + 1), scenario, ids, exp, remarked, bug, exp.bugs[bug],
                  fixture.bugs[id]);
      assert exp.bugs[bug := exp.bugs[bug]] == exp.bugs;
      assert remarked.bugs[id := fixture.bugs[id]] == fixture.bugs;
      FlagsRemarked(scenario, k + 1, ids, remarked.bugs, fixture.bugs);
    }
  }

  lemma FlagsRemarked(scenario: Scenario, k: nat, ids: IdTable, bugs: map<int, Bug>, next: map<int, Bug>)
    requires k <= |scenario.events| && FlagsAt(scenario, k, ids, bugs) && next.Keys == bugs.Keys
    requires forall b | b in bugs :: next[b].flags == bugs[b].flags
    ensures FlagsAt(scenario, k, ids, next)
  {
    forall r: Ref | r in ids && r.BugRef? && ids[r] in next
      ensures FlagsExplained(scenario, k, r.name, next[ids[r]].flags)
    {
      var id := ids[r];
      assert id in bugs && next[id].flags == bugs[id].flags;
      assert FlagsExplained(scenario, k, r.name, bugs[id].flags);
    }
  }

  lemma DuplicateUnasserted(scenario: Scenario, k: nat)
    requires Replayable(scenario) && k < |scenario.events| && scenario.events[k].action.BugUpdate?
    requires scenario.events[k].action.duplicateOf.Some?
    ensures var bug := scenario.events[k].action.bug;
      bug in Fold(scenario, k + 1).bugs && SERVER_DRIVEN <= Fold(scenario, k + 1).bugs[bug].unasserted
  {
    FoldNext(scenario, k);
    LoadedAt(scenario, k);
    var a, exp := scenario.events[k].action, Fold(scenario, k);
    OptionalLinksFrame(exp.bugs[a.bug := UpdatedNames(scenario, scenario.events[k], exp.bugs[a.bug])], a.bug,
                       a.newDependsOn, a.newBlocks);
  }

  // ----- Append events: the marker count against the commit -----

  /** The bug whose thread or attachment list an append event extends. */
  function AppendTarget(event: Event): string
    requires IsAppend(event)
  {
    event.action.bug
  }

  lemma AppendResolves(scenario: Scenario, k: nat, ids: IdTable, fixture: Fixture)
    requires Replayable(scenario) && k < |scenario.events| && IsAppend(scenario.events[k])
    requires At(scenario, k, ids, fixture)
    ensures BugRef(AppendTarget(scenario.events[k])) in ids
    ensures ids[BugRef(AppendTarget(scenario.events[k]))] in fixture.bugs
    ensures AppendTarget(scenario.events[k]) in Fold(scenario, k).bugs
  {
    IdsAreCreated(scenario, k, ids, fixture);
    assert EventResolves(scenario.emails, scenario.events, k);
    assert BugRef(AppendTarget(scenario.events[k])) in Uses(scenario.events[k]);
  }

  /** Whether each entry of a bug's thread answers event `j`'s query. */
  lemma ThreadHits(scenario: Scenario, k: nat, ids: IdTable, fixture: Fixture, bug: string, j: nat)
    requires Replayable(scenario) && k <= |scenario.events| && j < |scenario.events|
    requires At(scenario, k, ids, fixture) && bug in Fold(scenario, k).bugs
    ensures BugRef(bug) in ids && ids[BugRef(bug)] in fixture.bugs
    ensures var expected, thread := Fold(scenario, k).bugs[bug].comments, fixture.bugs[ids[BugRef(bug)]].comments;
      && |thread| == |expected|
      && forall n | 0 <= n < |thread| ::
           (Contains(thread[n].text, Token(MarkerOf(scenario, scenario.events[j])))
            <==> expected[n].marker == Some(MarkerOf(scenario, scenario.events[j])))
  {
    FoldWellMarked(scenario, k);
    var id := ids[BugRef(bug)];
    assert BugAgrees(Current(scenario, k), scenario, ids, bug, Fold(scenario, k).bugs[bug], fixture.bugs[id]);
    var expected, thread := Fold(scenario, k).bugs[bug].comments, fixture.bugs[id].comments;
    forall n | 0 <= n < |thread|
      ensures Contains(thread[n].text, Token(MarkerOf(scenario, scenario.events[j])))
         <==> expected[n].marker == Some(MarkerOf(scenario, scenario.events[j]))
    {
      assert expected[n] in expected;
      CommentHit(scenario, k, expected[n], thread[n], j);
    }
  }

  /** Whether each entry of a bug's attachment list answers event `j`'s query. */
  lemma ListHits(scenario: Scenario, k: nat, ids: IdTable, fixture: Fixture, bug: string, j: nat)
    requires Replayable(scenario) && k <= |scenario.events| && j < |scenario.events|
    requires At(scenario, k, ids, fixture) && bug in Fold(scenario, k).bugs
    ensures BugRef(bug) in ids && ids[BugRef(bug)] in fixture.bugs
    ensures var expected := Fold(scenario, k).bugs[bug].attachments;
      var listed := fixture.bugs[ids[BugRef(bug)]].attachments;
      && |listed| == |expected|
      && (forall n | 0 <= n < |listed| ::
           AttachmentRef(expected[n].alias) in ids && ids[AttachmentRef(expected[n].alias)] == listed[n])
      && forall n | 0 <= n < |listed| ::
           (Contains(Summaries(fixture, listed)[n], Token(MarkerOf(scenario, scenario.events[j])))
            <==> expected[n].alias !in Renamed(scenario.events, k)
                 && expected[n].marker == MarkerOf(scenario, scenario.events[j]))
  {
    FoldWellMarked(scenario, k);
    FoldSound(scenario, k);
    var id := ids[BugRef(bug)];
    assert BugAgrees(Current(scenario, k), scenario, ids, bug, Fold(scenario, k).bugs[bug], fixture.bugs[id]);
    var expected, listed := Fold(scenario, k).bugs[bug].attachments, fixture.bugs[id].attachments;
    forall n | 0 <= n < |listed|
      ensures Contains(Summaries(fixture, listed)[n], Token(MarkerOf(scenario, scenario.events[j])))
         <==> expected[n].alias !in Renamed(scenario.events, k)
              && expected[n].marker == MarkerOf(scenario, scenario.events[j])
    {
      assert Listed(Fold(scenario, k), bug, expected[n]);
      EntryHit(scenario, k, ids, fixture, expected[n].alias, j);
    }
  }

  lemma EntryHit(scenario: Scenario, k: nat, ids: IdTable, fixture: Fixture, x: string, j: nat)
    requires Replayable(scenario) && k <= |scenario.events| && j < |scenario.events|
    requires At(scenario, k, ids, fixture) && x in Fold(scenario, k).attachments
    requires Fold(scenario, k).attachments[x].alias == x
    requires WellMarked(scenario, k, Fold(scenario, k))
    ensures AttachmentRef(x) in ids && ids[AttachmentRef(x)] in fixture.attachments
    ensures Contains(fixture.attachments[ids[AttachmentRef(x)]].summary, Token(MarkerOf(scenario, scenario.events[j])))
       <==> x !in Renamed(scenario.events, k)
            && Fold(scenario, k).attachments[x].marker == MarkerOf(scenario, scenario.events[j])
  {
    var entry := Fold(scenario, k).attachments[x];
    assert AttachmentAgrees(Current(scenario, k), scenario, ids, entry,
                            fixture.attachments[ids[AttachmentRef(x)]]);
    SummaryHit(scenario, k, x in Renamed(scenario.events, k), entry,
               fixture.attachments[ids[AttachmentRef(x)]].summary, j);
  }

  /** Before an append event commits, its marker is nowhere to be found: reconciliation retries,
      or stops when the list did not answer. */
  lemma AppendVerdictBefore(scenario: Scenario, k: nat, ids: IdTable, fixture: Fixture, reply: Reply)
    requires Replayable(scenario) && k < |scenario.events| && IsAppend(scenario.events[k])
    requires EventResolves(scenario.emails, scenario.events, k)
    requires At(scenario, k, ids, fixture)
    ensures Reconcile(scenario, ids, scenario.events[k], fixture, reply)
         == Some(Verdict(if reply == Answer then Retry else Stop, map[]))
  {
    hide At, Fold, Loaded, AllSupported, CreatedBefore, ShapeOk, Distinct;
    var event := scenario.events[k];
    var bug, token := AppendTarget(event), Token(MarkerOf(scenario, event));
    AppendResolves(scenario, k, ids, fixture);
    var b := fixture.bugs[ids[BugRef(bug)]];
    if event.action.BugAttach? {
      ListHits(scenario, k, ids, fixture, bug, k);
      EarlierAttachments(scenario, k, bug);
      NoHits(Summaries(fixture, b.attachments), token);
    } else {
      ThreadHits(scenario, k, ids, fixture, bug, k);
      EarlierComments(scenario, k, bug);
      NoHits(CommentTexts(b.comments), token);
    }
  }

  /** Once it has committed, its marker is found exactly once, on the entry it made. */
  lemma AppendVerdictAfter(scenario: Scenario, k: nat, ids: IdTable, made: IdTable, fixture: Fixture,
                           reply: Reply)
    requires Replayable(scenario) && k < |scenario.events| && IsAppend(scenario.events[k])
    requires EventResolves(scenario.emails, scenario.events, k)
    requires ids.Keys == CreatedBefore(scenario.events, k) && made.Keys == Creates(scenario.events[k])
    requires At(scenario, k + 1, ids + made, fixture)
    ensures Reconcile(scenario, ids, scenario.events[k], fixture, reply)
         == Some(if reply == Answer then Verdict(Advance, made) else Verdict(Stop, map[]))
  {
    hide At, Fold, Loaded, AllSupported, CreatedBefore, ShapeOk, Distinct;
    var event := scenario.events[k];
    var bug := AppendTarget(event);
    assert BugRef(bug) in Uses(event);
    if event.action.BugAttach? {
      UploadVerdictAfter(scenario, k, ids, made, fixture, reply);
    } else {
      CommentHitAfter(scenario, k, ids + made, fixture);
      assert made == map[];
    }
  }

  lemma SingletonTable(table: IdTable, r: Ref)
    requires table.Keys == {r}
    ensures table == map[r := table[r]]
  {
  }

  /** What the fold of a comment or attachment event adds, and nothing more. */
  lemma FoldedAppend(scenario: Scenario, k: nat)
    requires Replayable(scenario) && k < |scenario.events| && IsAppend(scenario.events[k])
    ensures var event := scenario.events[k];
      var before, after := Fold(scenario, k), Fold(scenario, k + 1);
      && AppendTarget(event) in before.bugs && AppendTarget(event) in after.bugs
      && var b, b' := before.bugs[AppendTarget(event)], after.bugs[AppendTarget(event)];
         if event.action.BugAttach? then b'.attachments == b.attachments + [NewAttachment(scenario, event)]
         else |b'.comments| == |b.comments| + 1 && b'.comments[..|b.comments|] == b.comments
              && b'.comments[|b.comments|].marker == Some(MarkerOf(scenario, event))
  {
    FoldNext(scenario, k);
  }

  lemma CommentHitAfter(scenario: Scenario, k: nat, ids: IdTable, fixture: Fixture)
    requires Replayable(scenario) && k < |scenario.events|
    requires scenario.events[k].action.BugComment? || scenario.events[k].action.BugWorktime?
    requires At(scenario, k + 1, ids, fixture)
    ensures var event := scenario.events[k];
      && BugRef(AppendTarget(event)) in ids && ids[BugRef(AppendTarget(event))] in fixture.bugs
      && |MarkerHits(CommentTexts(fixture.bugs[ids[BugRef(AppendTarget(event))]].comments),
                     Token(MarkerOf(scenario, event)))| == 1
  {
    var event := scenario.events[k];
    var bug := AppendTarget(event);
    FoldedAppend(scenario, k);
    EarlierComments(scenario, k, bug);
    ThreadHits(scenario, k + 1, ids, fixture, bug, k);
    LastCommentHit(fixture.bugs[ids[BugRef(bug)]].comments, Fold(scenario, k).bugs[bug].comments,
                   Fold(scenario, k + 1).bugs[bug].comments, MarkerOf(scenario, event));
  }

  lemma LastCommentHit(thread: seq<Comment>, before: seq<ExpectedComment>, after: seq<ExpectedComment>, marker: string)
    requires |thread| == |after| == |before| + 1 && after[..|before|] == before
    requires after[|before|].marker == Some(marker)
    requires forall n | 0 <= n < |before| :: before[n].marker != Some(marker)
    requires forall n | 0 <= n < |thread| ::
      Contains(thread[n].text, Token(marker)) <==> after[n].marker == Some(marker)
    ensures |MarkerHits(CommentTexts(thread), Token(marker))| == 1
  {
    assert forall n | 0 <= n < |before| :: after[n] == after[..|before|][n];
    OneHit(CommentTexts(thread), Token(marker), |before|);
  }

  lemma LastUploadHit(summaries: seq<string>, before: seq<ExpectedAttachment>, made: ExpectedAttachment,
                      renamed: set<string>)
    requires |summaries| == |before| + 1 && made.alias !in renamed
    requires forall n | 0 <= n < |before| :: before[n].marker != made.marker
    requires forall n | 0 <= n < |summaries| ::
      (Contains(summaries[n], Token(made.marker))
       <==> (before + [made])[n].alias !in renamed && (before + [made])[n].marker == made.marker)
    ensures MarkerHits(summaries, Token(made.marker)) == [|before|]
  {
    OneHit(summaries, Token(made.marker), |before|);
  }

  /** No comment of the fold so far carries the next event's marker. */
  lemma EarlierComments(scenario: Scenario, k: nat, bug: string)
    requires Replayable(scenario) && k < |scenario.events| && bug in Fold(scenario, k).bugs
    ensures forall n | 0 <= n < |Fold(scenario, k).bugs[bug].comments| ::
      Fold(scenario, k).bugs[bug].comments[n].marker != Some(MarkerOf(scenario, scenario.events[k]))
  {
    MarkerNotYetWritten(scenario, k, k);
    FoldWellMarked(scenario, k);
    var before := Fold(scenario, k).bugs[bug].comments;
    assert forall n | 0 <= n < |before| :: before[n] in before;
  }

  lemma EarlierAttachments(scenario: Scenario, k: nat, bug: string)
    requires Replayable(scenario) && k < |scenario.events| && bug in Fold(scenario, k).bugs
    ensures forall n | 0 <= n < |Fold(scenario, k).bugs[bug].attachments| ::
      Fold(scenario, k).bugs[bug].attachments[n].marker != MarkerOf(scenario, scenario.events[k])
  {
    MarkerNotYetWritten(scenario, k, k);
    FoldWellMarked(scenario, k);
    FoldSound(scenario, k);
    var before := Fold(scenario, k).bugs[bug].attachments;
    forall n | 0 <= n < |before| ensures before[n].marker != MarkerOf(scenario, scenario.events[k]) {
      assert Listed(Fold(scenario, k), bug, before[n]);
    }
  }

  lemma UploadVerdictAfter(scenario: Scenario, k: nat, ids: IdTable, made: IdTable, fixture: Fixture,
                           reply: Reply)
    requires Replayable(scenario) && k < |scenario.events| && scenario.events[k].action.BugAttach?
    requires EventResolves(scenario.emails, scenario.events, k)
    requires ids.Keys == CreatedBefore(scenario.events, k) && made.Keys == Creates(scenario.events[k])
    requires At(scenario, k + 1, ids + made, fixture)
    ensures Reconcile(scenario, ids, scenario.events[k], fixture, reply)
         == Some(if reply == Answer then Verdict(Advance, made) else Verdict(Stop, map[]))
  {
    var event := scenario.events[k];
    var bug, x := AppendTarget(event), event.action.attachment;
    assert BugRef(bug) in Uses(event);
    assert AttachmentRef(x) in Creates(event);
    UploadHitAfter(scenario, k, ids + made, fixture);
    SingletonTable(made, AttachmentRef(x));
  }

  lemma UploadHitAfter(scenario: Scenario, k: nat, ids: IdTable, fixture: Fixture)
    requires Replayable(scenario) && k < |scenario.events| && scenario.events[k].action.BugAttach?
    requires At(scenario, k + 1, ids, fixture)
    ensures var event := scenario.events[k];
      && BugRef(AppendTarget(event)) in ids && ids[BugRef(AppendTarget(event))] in fixture.bugs
      && AttachmentRef(event.action.attachment) in ids
      && var listed := fixture.bugs[ids[BugRef(AppendTarget(event))]].attachments;
         && |listed| > 0 && listed[|listed| - 1] == ids[AttachmentRef(event.action.attachment)]
         && MarkerHits(Summaries(fixture, listed), Token(MarkerOf(scenario, event))) == [|listed| - 1]
  {
    hide At, Fold, WellFormed, AllSupported, DistinctAliases, MarkerOf, Token, Renamed, RenderAttachmentSummary;
    var event := scenario.events[k];
    var bug, x := AppendTarget(event), event.action.attachment;
    FoldedAppend(scenario, k);
    EarlierAttachments(scenario, k, bug);
    var before := Fold(scenario, k).bugs[bug].attachments;
    NewIsNotRenamed(scenario, k);
    ListHits(scenario, k + 1, ids, fixture, bug, k);
    LastUploadHit(Summaries(fixture, fixture.bugs[ids[BugRef(bug)]].attachments), before,
                  NewAttachment(scenario, event), Renamed(scenario.events, k + 1));
  }

  lemma {:induction false} RenamedWereCreated(scenario: Scenario, k: nat)
    requires k <= |scenario.events| && WellFormed(scenario.emails, scenario.events)
    ensures forall x | x in Renamed(scenario.events, k) :: AttachmentRef(x) in CreatedBefore(scenario.events, k)
  {
    if k > 0 {
      RenamedWereCreated(scenario, k - 1);
      assert EventResolves(scenario.emails, scenario.events, k - 1);
      var event := scenario.events[k - 1];
      if event.action.AttachmentUpdate? { assert AttachmentRef(event.action.attachment) in Uses(event); }
    }
  }

  lemma NewIsNotRenamed(scenario: Scenario, k: nat)
    requires k < |scenario.events| && WellFormed(scenario.emails, scenario.events)
    requires scenario.events[k].action.BugAttach?
    ensures scenario.events[k].action.attachment !in Renamed(scenario.events, k + 1)
  {
    RenamedWereCreated(scenario, k);
    assert EventResolves(scenario.emails, scenario.events, k);
    assert AttachmentRef(scenario.events[k].action.attachment) in Creates(scenario.events[k]);
  }

  // ----- Create events: the alias lookup against the commit -----

  lemma CreateVerdictBefore(scenario: Scenario, k: nat, ids: IdTable, fixture: Fixture, reply: Reply)
    requires Replayable(scenario) && k < |scenario.events| && IsCreate(scenario.events[k])
    requires EventResolves(scenario.emails, scenario.events, k)
    requires At(scenario, k, ids, fixture)
    ensures scenario.events[k].action.serverAlias !in fixture.aliases
    ensures Reconcile(scenario, ids, scenario.events[k], fixture, reply)
         == Some(Verdict(if reply == Unrecognised then Stop else Retry, map[]))
  {
  }

  /** After the commit, exit status 2 still reads as "absent": the verdict may be a wrong `retry`,
      but the live alias then refuses a second commit. */
  lemma CreateVerdictAfter(scenario: Scenario, k: nat, ids: IdTable, made: IdTable, fixture: Fixture,
                           reply: Reply)
    requires Replayable(scenario) && k < |scenario.events| && IsCreate(scenario.events[k])
    requires EventResolves(scenario.emails, scenario.events, k)
    requires made.Keys == Creates(scenario.events[k])
    requires At(scenario, k + 1, ids + made, fixture)
    ensures scenario.events[k].action.serverAlias in fixture.aliases
    ensures Reconcile(scenario, ids, scenario.events[k], fixture, reply)
         == Some(match reply
                 case Answer => Verdict(Advance, made)
                 case ExitTwo => Verdict(Retry, map[])
                 case Unrecognised => Verdict(Stop, map[]))
  {
    var a := scenario.events[k].action;
    assert BugRef(a.bug) in Creates(scenario.events[k]);
    assert a.serverAlias in AliasTable(scenario.events, k + 1);
    SingletonTable(made, BugRef(a.bug));
  }
}
