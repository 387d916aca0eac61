/** Comment threads: in every reachable state, the entries of a thread that answer an event's marker
    query are exactly that event's commits. */
module Threads {
  import opened Prelude
  import opened Markers
  import opened Scenarios
  import opened Fixtures
  import opened Actions
  import opened Expected
  import opened Recovery
  import opened ReplayMachine
  import opened ReplaySafety
  import opened ReplayTheorems

  /** The events that append a marked comment. */
  predicate Comments(event: Event) { event.action.BugComment? || event.action.BugWorktime? }

  function Target(event: Event): string
    requires Comments(event)
  {
    event.action.bug
  }

  /** What a fold step does to one existing bug's thread. */
  lemma StepThread(scenario: Scenario, exp: Expectation, event: Event, a: string)
    requires Actors(event) <= scenario.emails.Keys && Applicable(exp, event)
    requires a in exp.bugs && BugRef(a) !in Creates(event)
    ensures a in FoldStep(scenario, exp, event).bugs
    ensures var before, after := exp.bugs[a].comments, FoldStep(scenario, exp, event).bugs[a].comments;
      if Comments(event) && Target(event) == a then
        && |after| == |before| + 1 && after[..|before|] == before
        && after[|before|].marker == Some(MarkerOf(scenario, event))
      else after == before
  {
    match event.action
    case BugCreate(bug, _, _, _, _, _, _, dependsOn, blocks) =>
      OptionalLinksFrame(exp.bugs[bug := NewBug(scenario, event)], bug, Some(dependsOn), Some(blocks));
    case BugUpdate(bug, _, _, _, _, _, dependsOn, blocks, _) =>
      OptionalLinksFrame(exp.bugs[bug := UpdatedNames(scenario, event, exp.bugs[bug])], bug, dependsOn, blocks);
    case _ =>
  }

  /** A bug a step adds starts with its unmarked description. */
  lemma StepNewThread(scenario: Scenario, exp: Expectation, event: Event, a: string)
    requires Actors(event) <= scenario.emails.Keys && Applicable(exp, event)
    requires a in FoldStep(scenario, exp, event).bugs && (a !in exp.bugs || BugRef(a) in Creates(event))
    ensures forall n | 0 <= n < |FoldStep(scenario, exp, event).bugs[a].comments| ::
      FoldStep(scenario, exp, event).bugs[a].comments[n].marker.None?
  {
    match event.action
    case BugCreate(bug, _, _, _, _, _, _, dependsOn, blocks) =>
      OptionalLinksFrame(exp.bugs[bug := NewBug(scenario, event)], bug, Some(dependsOn), Some(blocks));
    case BugUpdate(bug, _, _, _, _, _, dependsOn, blocks, _) =>
      OptionalLinksFrame(exp.bugs[bug := UpdatedNames(scenario, event, exp.bugs[bug])], bug, dependsOn, blocks);
    case _ =>
  }

  /** The marker stands at this place of this bug's thread and nowhere else. */
  ghost predicate OnlyAt(bugs: map<string, ExpectedBug>, marker: string, bug: string, at: nat)
  {
    && bug in bugs && at < |bugs[bug].comments|
    && forall a, n | a in bugs && 0 <= n < |bugs[a].comments| ::
         bugs[a].comments[n].marker == Some(marker) <==> a == bug && n == at
  }

  ghost predicate Nowhere(bugs: map<string, ExpectedBug>, marker: string)
  {
    forall a, n | a in bugs && 0 <= n < |bugs[a].comments| :: bugs[a].comments[n].marker != Some(marker)
  }

  lemma NotYetFolded(scenario: Scenario, k: nat, j: nat)
    requires Replayable(scenario) && k <= j < |scenario.events|
    ensures Nowhere(Fold(scenario, k).bugs, MarkerOf(scenario, scenario.events[j]))
  {
    MarkerNotYetWritten(scenario, k, j);
    FoldWellMarked(scenario, k);
    var bugs, marker := Fold(scenario, k).bugs, MarkerOf(scenario, scenario.events[j]);
    forall a, n | a in bugs && 0 <= n < |bugs[a].comments| ensures bugs[a].comments[n].marker != Some(marker) {
      assert bugs[a].comments[n] in bugs[a].comments;
    }
  }

  lemma MarkersDiffer(scenario: Scenario, i: nat, j: nat)
    requires Replayable(scenario) && i < |scenario.events| && j < |scenario.events| && i != j
    ensures MarkerOf(scenario, scenario.events[i]) != MarkerOf(scenario, scenario.events[j])
  {
    var low, high := if i < j then i else j, if i < j then j else i;
    MarkerNotYetWritten(scenario, high, high);
    assert MarkerOf(scenario, scenario.events[low]) in MarkersBefore(scenario, high);
  }

  /** The event's own step puts its marker at the end of its target's thread. */
  lemma MarkerAppears(scenario: Scenario, j: nat) returns (at: nat)
    requires Replayable(scenario) && j < |scenario.events| && Comments(scenario.events[j])
    ensures OnlyAt(Fold(scenario, j + 1).bugs, MarkerOf(scenario, scenario.events[j]), Target(scenario.events[j]), at)
  {
    var event := scenario.events[j];
    FoldNext(scenario, j);
    NotYetFolded(scenario, j, j);
    at := |Fold(scenario, j).bugs[Target(event)].comments|;
    hide Replayable, FoldStep;
    Appears(scenario, Fold(scenario, j), event, at);
  }

  lemma Appears(scenario: Scenario, exp: Expectation, event: Event, at: nat)
    requires Actors(event) <= scenario.emails.Keys && Applicable(exp, event) && Comments(event)
    requires Nowhere(exp.bugs, MarkerOf(scenario, event)) && at == |exp.bugs[Target(event)].comments|
    ensures OnlyAt(FoldStep(scenario, exp, event).bugs, MarkerOf(scenario, event), Target(event), at)
  {
  }

  /** Another event's step leaves it where it is. */
  lemma MarkerStays(scenario: Scenario, exp: Expectation, event: Event, marker: string, bug: string, at: nat)
    requires Actors(event) <= scenario.emails.Keys && Applicable(exp, event)
    requires OnlyAt(exp.bugs, marker, bug, at) && marker != MarkerOf(scenario, event)
    requires forall a | BugRef(a) in Creates(event) :: a !in exp.bugs
    ensures OnlyAt(FoldStep(scenario, exp, event).bugs, marker, bug, at)
  {
    var next := FoldStep(scenario, exp, event);
    StepThread(scenario, exp, event, bug);
    hide FoldStep;
    assert next.bugs[bug].comments[..|exp.bugs[bug].comments|] == exp.bugs[bug].comments;
    forall a, n | a in next.bugs && 0 <= n < |next.bugs[a].comments|
      ensures next.bugs[a].comments[n].marker == Some(marker) <==> a == bug && n == at
    {
      if a in exp.bugs {
        StepThread(scenario, exp, event, a);
        var before, after := exp.bugs[a].comments, next.bugs[a].comments;
        assert n < |before| ==> after[n] == after[..|before|][n] == before[n];
      } else {
        StepNewThread(scenario, exp, event, a);
      }
    }
  }

  lemma {:induction false} MarkerKept(scenario: Scenario, k: nat, j: nat) returns (at: nat)
    requires Replayable(scenario) && j < k <= |scenario.events| && Comments(scenario.events[j])
    ensures OnlyAt(Fold(scenario, k).bugs, MarkerOf(scenario, scenario.events[j]), Target(scenario.events[j]), at)
    decreases k
  {
    hide FoldStep, Fold, OnlyAt, AllSupported, DistinctAliases;
    if k == j + 1 {
      at := MarkerAppears(scenario, j);
    } else {
      at := MarkerKept(scenario, k - 1, j);
      FoldNext(scenario, k - 1);
      NewBugsAreNew(scenario, k - 1);
      MarkersDiffer(scenario, k - 1, j);
      MarkerStays(scenario, Fold(scenario, k - 1), scenario.events[k - 1], MarkerOf(scenario, scenario.events[j]),
                  Target(scenario.events[j]), at);
    }
  }

  lemma NewBugsAreNew(scenario: Scenario, k: nat)
    requires Replayable(scenario) && k < |scenario.events|
    ensures forall a | BugRef(a) in Creates(scenario.events[k]) :: a !in Fold(scenario, k).bugs
  {
    FoldSound(scenario, k);
    assert EventResolves(scenario.emails, scenario.events, k);
  }

  // ----- On the server -----

  function HitCount(thread: seq<Comment>, token: string): nat
  {
    |MarkerHits(CommentTexts(thread), token)|
  }

  lemma NamedAt(scenario: Scenario, k: nat, ids: IdTable, fixture: Fixture, bug: string)
    requires k <= |scenario.events| && At(scenario, k, ids, fixture) && BugRef(bug) in ids
    ensures bug in Fold(scenario, k).bugs
  {
    assert bug in Fold(scenario, k).bugs.Keys <==> BugRef(bug) in ids;
  }

  lemma ReplayableResolves(scenario: Scenario)
    requires Replayable(scenario)
    ensures WellFormed(scenario.emails, scenario.events)
  {
  }

  /** At each point of the scenario, an event's marker is found once in its own thread if the event
      is behind that point, and in no thread otherwise. */
  lemma HitsAt(scenario: Scenario, k: nat, ids: IdTable, fixture: Fixture, j: nat, bug: string)
    requires Replayable(scenario) && k <= |scenario.events| && j < |scenario.events| && Comments(scenario.events[j])
    requires At(scenario, k, ids, fixture) && BugRef(bug) in ids
    ensures ids[BugRef(bug)] in fixture.bugs
    ensures HitCount(fixture.bugs[ids[BugRef(bug)]].comments, Token(MarkerOf(scenario, scenario.events[j])))
         == if j < k && bug == Target(scenario.events[j]) then 1 else 0
  {
    hide At, Replayable, Fold;
    var exp := Fold(scenario, k);
    NamedAt(scenario, k, ids, fixture, bug);
    ThreadHits(scenario, k, ids, fixture, bug, j);
    var thread, expected := fixture.bugs[ids[BugRef(bug)]].comments, exp.bugs[bug].comments;
    var marker := MarkerOf(scenario, scenario.events[j]);
    if j < k {
      var at := MarkerKept(scenario, k, j);
      if bug == Target(scenario.events[j]) {
        OneHit(CommentTexts(thread), Token(marker), at);
      } else {
        NoHits(CommentTexts(thread), Token(marker));
      }
    } else {
      NotYetFolded(scenario, k, j);
      NoHits(CommentTexts(thread), Token(marker));
    }
  }

  lemma CountAt(scenario: Scenario, s: State, p: nat, made: IdTable, j: nat)
    requires Replayable(scenario) && DurableOk(scenario, s, p, made)
    requires j < |scenario.events| && Comments(scenario.events[j])
    requires BugRef(Target(scenario.events[j])) in Table(scenario, s.journal, p)
    ensures var id := Table(scenario, s.journal, p)[BugRef(Target(scenario.events[j]))];
      && id in s.fixture.bugs
      && HitCount(s.fixture.bugs[id].comments, Token(MarkerOf(scenario, scenario.events[j])))
         == Commits(s.sent, scenario.events[j])
  {
    hide At, HistoryOk, Table, Replayable, HitCount, Token, Commits;
    var ids, bug := Table(scenario, s.journal, p), Target(scenario.events[j]);
    TableKeys(scenario, s.journal, p, p);
    hide JournalOk;
    if Committed(scenario, s, p) {
      Resolves(scenario, p);
      HitsAt(scenario, p + 1, ids + made, s.fixture, j, bug);
    } else {
      HitsAt(scenario, p, ids, s.fixture, j, bug);
    }
  }

  /** In every reachable state, the thread of a comment event's target answers the event's marker
      query with as many entries as the event has commits. */
  lemma ThreadCountsCommits(scenario: Scenario, s: State, moves: seq<Move>, j: nat) returns (p: nat)
    requires Replayable(scenario) && Declared(scenario) && Initial(scenario, s)
    requires j < |scenario.events| && Comments(scenario.events[j])
    ensures p <= |scenario.events|
    ensures forall i | 0 <= i < |scenario.events| ::
      Advances(History(Run(scenario, s, moves).journal, scenario.events[i])) <==> i < p
    ensures var r := Run(scenario, s, moves);
      var ids := Table(scenario, r.journal, p);
      && (j <= p ==> BugRef(Target(scenario.events[j])) in ids)
      && (BugRef(Target(scenario.events[j])) in ids ==>
           && ids[BugRef(Target(scenario.events[j]))] in r.fixture.bugs
           && HitCount(r.fixture.bugs[ids[BugRef(Target(scenario.events[j]))]].comments,
                       Token(MarkerOf(scenario, scenario.events[j])))
              == Commits(r.sent, scenario.events[j]))
  {
    hide Initial, Replayable, Run, At, HandOk, ProcessOk, HistoryOk, LedgerOk, ReplayMachine.History, HitCount,
      Table, Token;
    var made;
    p, made := Reached(scenario, s, moves);
    var r := Run(scenario, s, moves);
    TableKeys(scenario, r.journal, p, p);
    if j <= p { TargetCreated(scenario, p, j); }
    if BugRef(Target(scenario.events[j])) in Table(scenario, r.journal, p) {
      CountAt(scenario, r, p, made, j);
    }
  }

  lemma TargetCreated(scenario: Scenario, p: nat, j: nat)
    requires Replayable(scenario) && j <= p <= |scenario.events| && j < |scenario.events|
        && Comments(scenario.events[j])
    ensures BugRef(Target(scenario.events[j])) in CreatedBefore(scenario.events, p)
  {
    Resolves(scenario, j);
    assert BugRef(Target(scenario.events[j])) in Uses(scenario.events[j]);
    CreatedBeforeGrows(scenario.events, j, p);
  }

  // ----- Attachment lists -----

  /** The upload's entry, and no other, carries its marker, on the bug it was attached to. */
  ghost predicate OnlyUpload(exp: Expectation, marker: string, x: string, bug: string)
  {
    && x in exp.attachments && exp.attachments[x].bug == bug
    && forall y | y in exp.attachments :: exp.attachments[y].marker == marker <==> y == x
  }

  lemma UploadStep(scenario: Scenario, k: nat, marker: string, x: string, bug: string)
    requires Replayable(scenario) && k < |scenario.events|
    requires var a := scenario.events[k].action;
      if a.BugAttach? && a.attachment == x then
        && marker == MarkerOf(scenario, scenario.events[k]) && a.bug == bug
        && forall y | y in Fold(scenario, k).attachments :: Fold(scenario, k).attachments[y].marker != marker
      else OnlyUpload(Fold(scenario, k), marker, x, bug) && marker != MarkerOf(scenario, scenario.events[k])
    ensures OnlyUpload(Fold(scenario, k + 1), marker, x, bug)
  {
    hide Fold, Replayable, FoldStep, RenderAttachmentSummary;
    ReplayableResolves(scenario);
    FoldNext(scenario, k);
    FoldWellMarked(scenario, k);
    LoadedAt(scenario, k);
    var event, exp := scenario.events[k], Fold(scenario, k);
    UploadTable(scenario, exp, event);
    forall y | y in FoldStep(scenario, exp, event).attachments
      ensures FoldStep(scenario, exp, event).attachments[y].marker == marker <==> y == x
    {
      StepSummaries(scenario, exp, event, y);
    }
  }

  /** What a step does to the attachment table, but for the entries' summaries. */
  lemma UploadTable(scenario: Scenario, exp: Expectation, event: Event)
    requires Actors(event) <= scenario.emails.Keys && Applicable(exp, event)
    ensures var a, next := event.action, FoldStep(scenario, exp, event);
      && next.attachments.Keys == exp.attachments.Keys + (if a.BugAttach? then {a.attachment} else {})
      && forall y | y in next.attachments ::
           next.attachments[y].bug == if a.BugAttach? && a.attachment == y then a.bug else exp.attachments[y].bug
  {
  }

  lemma {:induction false} UploadKept(scenario: Scenario, k: nat, j: nat)
    requires Replayable(scenario) && j < k <= |scenario.events| && scenario.events[j].action.BugAttach?
    ensures var a := scenario.events[j].action;
      OnlyUpload(Fold(scenario, k), MarkerOf(scenario, scenario.events[j]), a.attachment, a.bug)
    decreases k
  {
    hide Fold, OnlyUpload, WellFormed, AllSupported, DistinctAliases;
    var a := scenario.events[j].action;
    if k == j + 1 {
      NoUploadYet(scenario, j, j);
    } else {
      UploadKept(scenario, k - 1, j);
      MarkersDiffer(scenario, k - 1, j);
      CreatorsDiffer(scenario.emails, scenario.events, j, k - 1);
      assert AttachmentRef(a.attachment) in Creates(scenario.events[j]);
    }
    UploadStep(scenario, k - 1, MarkerOf(scenario, scenario.events[j]), a.attachment, a.bug);
  }

  lemma NoUploadYet(scenario: Scenario, k: nat, j: nat)
    requires Replayable(scenario) && k <= j < |scenario.events|
    ensures forall y | y in Fold(scenario, k).attachments ::
      Fold(scenario, k).attachments[y].marker != MarkerOf(scenario, scenario.events[j])
  {
    MarkerNotYetWritten(scenario, k, j);
    FoldWellMarked(scenario, k);
  }

  /** At each point, an upload's marker is found once in the list of its own bug if the upload is behind
      that point and no later description has replaced its summary, and in no list otherwise. */
  lemma UploadHitsAt(scenario: Scenario, k: nat, ids: IdTable, fixture: Fixture, j: nat, bug: string)
    requires Replayable(scenario) && k <= |scenario.events| && j < |scenario.events|
    requires scenario.events[j].action.BugAttach? && At(scenario, k, ids, fixture) && BugRef(bug) in ids
    ensures ids[BugRef(bug)] in fixture.bugs
    ensures |MarkerHits(Summaries(fixture, fixture.bugs[ids[BugRef(bug)]].attachments),
                        Token(MarkerOf(scenario, scenario.events[j])))|
         == var a := scenario.events[j].action;
            if j < k && bug == a.bug && a.attachment !in Renamed(scenario.events, k) then 1 else 0
  {
    hide At, Replayable, Fold, Renamed;
    var exp, a := Fold(scenario, k), scenario.events[j].action;
    NamedAt(scenario, k, ids, fixture, bug);
    ReplayableResolves(scenario);
    ListHits(scenario, k, ids, fixture, bug, j);
    FoldSound(scenario, k);
    if j < k { UploadKept(scenario, k, j); } else { NoUploadYet(scenario, k, j); }
    CountUpload(exp, bug, Summaries(fixture, fixture.bugs[ids[BugRef(bug)]].attachments), Renamed(scenario.events, k),
                MarkerOf(scenario, scenario.events[j]), j < k, a.attachment, a.bug);
  }

  lemma CountUpload(exp: Expectation, bug: string, summaries: seq<string>, renamed: set<string>, marker: string,
                    folded: bool, x: string, home: string)
    requires AttachmentsConsistent(exp) && bug in exp.bugs && |summaries| == |exp.bugs[bug].attachments|
    requires forall n | 0 <= n < |summaries| ::
      (Contains(summaries[n], Token(marker))
       <==> exp.bugs[bug].attachments[n].alias !in renamed && exp.bugs[bug].attachments[n].marker == marker)
    requires if folded then OnlyUpload(exp, marker, x, home)
             else forall y | y in exp.attachments :: exp.attachments[y].marker != marker
    ensures |MarkerHits(summaries, Token(marker))| == if folded && bug == home && x !in renamed then 1 else 0
  {
    var listed := exp.bugs[bug].attachments;
    forall n | 0 <= n < |listed| ensures listed[n].marker == marker <==> folded && bug == home && listed[n].alias == x {
      assert Listed(exp, bug, listed[n]);
    }
    if folded && bug == home && x !in renamed {
      assert Homed(exp, x);
      var at :| 0 <= at < |listed| && listed[at] == exp.attachments[x];
      OneHit(summaries, Token(marker), at);
    } else {
      NoHits(summaries, Token(marker));
    }
  }

  /** How far the commits have got: to the event in hand, or past it once it has been committed. */
  function Reach(scenario: Scenario, sent: seq<string>, p: nat): nat
    requires p <= |scenario.events|
  {
    if p < |scenario.events| && Commits(sent, scenario.events[p]) > 0 then p + 1 else p
  }

  lemma UploadCountAt(scenario: Scenario, s: State, p: nat, made: IdTable, j: nat)
    requires Replayable(scenario) && DurableOk(scenario, s, p, made)
    requires j < |scenario.events| && scenario.events[j].action.BugAttach?
    requires BugRef(scenario.events[j].action.bug) in Table(scenario, s.journal, p)
    ensures var a := scenario.events[j].action;
      var id := Table(scenario, s.journal, p)[BugRef(a.bug)];
      && id in s.fixture.bugs
      && |MarkerHits(Summaries(s.fixture, s.fixture.bugs[id].attachments),
                     Token(MarkerOf(scenario, scenario.events[j])))|
         == if a.attachment in Renamed(scenario.events, Reach(scenario, s.sent, p)) then 0
            else Commits(s.sent, scenario.events[j])
  {
    hide At, HistoryOk, Table, Replayable, Token, Commits, MarkerHits, Summaries, Renamed;
    var ids, bug := Table(scenario, s.journal, p), scenario.events[j].action.bug;
    TableKeys(scenario, s.journal, p, p);
    hide JournalOk;
    if Committed(scenario, s, p) {
      Resolves(scenario, p);
      UploadHitsAt(scenario, p + 1, ids + made, s.fixture, j, bug);
      if j > p { RenamedLater(scenario, p + 1, j); }
    } else {
      UploadHitsAt(scenario, p, ids, s.fixture, j, bug);
      if j >= p { RenamedLater(scenario, p, j); }
    }
  }

  lemma RenamedLater(scenario: Scenario, k: nat, j: nat)
    requires Replayable(scenario) && k <= j < |scenario.events| && scenario.events[j].action.BugAttach?
    ensures scenario.events[j].action.attachment !in Renamed(scenario.events, k)
  {
    RenamedWereCreated(scenario, k);
    CreatedBeforeGrows(scenario.events, k, j);
    Resolves(scenario, j);
    assert AttachmentRef(scenario.events[j].action.attachment) in Creates(scenario.events[j]);
  }

  /** In every reachable state, the attachment list of an upload's bug answers the upload's marker query
      with as many entries as the upload has commits, until a description replaces its summary: from
      then on with none. */
  lemma ListCountsCommits(scenario: Scenario, s: State, moves: seq<Move>, j: nat) returns (p: nat)
    requires Replayable(scenario) && Declared(scenario) && Initial(scenario, s)
    requires j < |scenario.events| && scenario.events[j].action.BugAttach?
    ensures p <= |scenario.events|
    ensures forall i | 0 <= i < |scenario.events| ::
      Advances(History(Run(scenario, s, moves).journal, scenario.events[i])) <==> i < p
    ensures var r, a := Run(scenario, s, moves), scenario.events[j].action;
      var ids := Table(scenario, r.journal, p);
      && (j <= p ==> BugRef(a.bug) in ids)
      && (BugRef(a.bug) in ids ==>
           && ids[BugRef(a.bug)] in r.fixture.bugs
           && |MarkerHits(Summaries(r.fixture, r.fixture.bugs[ids[BugRef(a.bug)]].attachments),
                          Token(MarkerOf(scenario, scenario.events[j])))|
              == if a.attachment in Renamed(scenario.events, Reach(scenario, r.sent, p)) then 0
                 else Commits(r.sent, scenario.events[j]))
  {
    hide Initial, Replayable, Run, At, HandOk, ProcessOk, HistoryOk, LedgerOk, ReplayMachine.History, Table, Token,
      MarkerHits, Summaries, Renamed;
    var made;
    p, made := Reached(scenario, s, moves);
    var r := Run(scenario, s, moves);
    TableKeys(scenario, r.journal, p, p);
    if j <= p { UploadTarget(scenario, p, j); }
    if BugRef(scenario.events[j].action.bug) in Table(scenario, r.journal, p) {
      UploadCountAt(scenario, r, p, made, j);
    }
  }

  lemma UploadTarget(scenario: Scenario, p: nat, j: nat)
    requires Replayable(scenario) && j <= p <= |scenario.events| && j < |scenario.events|
    requires scenario.events[j].action.BugAttach?
    ensures BugRef(scenario.events[j].action.bug) in CreatedBefore(scenario.events, p)
  {
    Resolves(scenario, j);
    assert BugRef(scenario.events[j].action.bug) in Uses(scenario.events[j]);
    CreatedBeforeGrows(scenario.events, j, p);
  }
}
