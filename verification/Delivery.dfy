/** Delta replay without faults: the events' requests sent one after another, each built from the server
    as the ones before left it, against the fold of the same events. */
module Deliveries {
  import opened Prelude
  import opened Scenarios
  import opened Fixtures
  import opened Actions
  import opened Expected
  import opened Simulation
  import opened Recovery
  import opened ReplayMachine
  import opened ReplaySafety
  import opened ReplayTheorems

  datatype Delivery = Delivery(ids: IdTable, fixture: Fixture)

  /** The id table and the server after the first `k` events; `None` if a request could not be built or
      was refused. */
  function Deliver(scenario: Scenario, baseline: Fixture, k: nat): Option<Delivery>
    requires Declared(scenario) && k <= |scenario.events|
  {
    if k == 0 then Some(Delivery(map[], baseline))
    else
      var before := Deliver(scenario, baseline, k - 1);
      if before.None? then None
      else DeliverNext(scenario, before.value, scenario.events[k - 1])
  }

  function DeliverNext(scenario: Scenario, before: Delivery, event: Event): Option<Delivery>
    requires Actors(event) <= scenario.emails.Keys
  {
    assert event.actor in Actors(event);
    var request := Build(scenario, before.ids, event, before.fixture);
    if request.None? || !Accepts(before.fixture, request.value) then None
    else Some(Delivery(before.ids + ResolvedIds(event, before.fixture),
                       Commit(before.fixture, scenario.emails[event.actor], request.value)))
  }

  /** The gaps of that course of events. The guard never fails for a loaded scenario. */
  function Faultless(scenario: Scenario, k: nat): Gaps
    requires k <= |scenario.events|
  {
    if k == 0 then NoGaps
    else
      var before := Faultless(scenario, k - 1);
      var event := scenario.events[k - 1];
      if Actors(event) <= scenario.emails.Keys && Applicable(Fold(scenario, k - 1), event)
      then After(before, scenario, Fold(scenario, k - 1), event)
      else before
  }

  /** No login is ever missing, and which self-edges have slipped is known exactly. */
  lemma {:induction false} FaultlessIsExact(scenario: Scenario, k: nat)
    requires k <= |scenario.events| && WellFormed(scenario.emails, scenario.events)
    ensures var gaps := Faultless(scenario, k);
      gaps.mayMiss == {} && gaps.mustMiss == {} && gaps.maySlip == gaps.mustSlip
      && gaps.renamed == Renamed(scenario.events, k)
  {
    hide Fold, After, Renamed, Actors, Applicable;
    if k == 0 {
      NothingRenamed(scenario.events);
    } else {
      FaultlessIsExact(scenario, k - 1);
      FoldNext(scenario, k - 1);
      AfterIsExact(Faultless(scenario, k - 1), scenario, Fold(scenario, k - 1), scenario.events[k - 1]);
      AfterRenames(Faultless(scenario, k - 1), scenario, Fold(scenario, k - 1), k - 1);
    }
  }

  lemma NothingRenamed(events: seq<Event>)
    ensures Renamed(events, 0) == {}
  {
  }

  lemma AfterRenames(gaps: Gaps, scenario: Scenario, exp: Expectation, k: nat)
    requires k < |scenario.events| && Actors(scenario.events[k]) <= scenario.emails.Keys
    requires Applicable(exp, scenario.events[k]) && gaps.renamed == Renamed(scenario.events, k)
    ensures After(gaps, scenario, exp, scenario.events[k]).renamed == Renamed(scenario.events, k + 1)
  {
  }

  lemma AfterIsExact(gaps: Gaps, scenario: Scenario, exp: Expectation, event: Event)
    requires Actors(event) <= scenario.emails.Keys && Applicable(exp, event)
    requires gaps.mayMiss == {} && gaps.mustMiss == {} && gaps.maySlip == gaps.mustSlip
    ensures var next := After(gaps, scenario, exp, event);
      next.mayMiss == {} && next.mustMiss == {} && next.maySlip == next.mustSlip
  {
  }

  /** Without an update that declares its self-edge on one side only, none slips. */
  lemma {:induction false} NothingSlips(scenario: Scenario, k: nat)
    requires k <= |scenario.events| && forall i | 0 <= i < k :: !OneSided(scenario.events[i])
    ensures Faultless(scenario, k).maySlip == {}
  {
    if k > 0 { NothingSlips(scenario, k - 1); }
  }

  /** Every delivery succeeds and keeps agreement, with exactly those gaps. */
  lemma {:induction false} DeliveryAgrees(scenario: Scenario, baseline: Fixture, k: nat)
    requires Replayable(scenario) && Declared(scenario) && Pristine(scenario.events, baseline) && k <= |scenario.events|
    ensures Deliver(scenario, baseline, k).Some?
    ensures var d := Deliver(scenario, baseline, k).value;
      && At(scenario, k, d.ids, d.fixture)
      && Agrees(Faultless(scenario, k), scenario, d.ids, Fold(scenario, k), d.fixture)
  {
    hide At, Agrees, After, DeliverNext, Fold, Replayable, Applicable, Actors;
    if k == 0 {
      StartAgrees(scenario, baseline);
    } else {
      DeliveryAgrees(scenario, baseline, k - 1);
      LoadedNext(scenario, k - 1);
      NextAgrees(Faultless(scenario, k - 1), scenario, k - 1, Deliver(scenario, baseline, k - 1).value);
    }
  }

  lemma LoadedNext(scenario: Scenario, k: nat)
    requires Replayable(scenario) && k < |scenario.events|
    ensures Actors(scenario.events[k]) <= scenario.emails.Keys
    ensures Applicable(Fold(scenario, k), scenario.events[k])
  {
    FoldNext(scenario, k);
  }

  lemma NextAgrees(gaps: Gaps, scenario: Scenario, k: nat, d: Delivery)
    requires Replayable(scenario) && Declared(scenario) && k < |scenario.events|
    requires Actors(scenario.events[k]) <= scenario.emails.Keys && Applicable(Fold(scenario, k), scenario.events[k])
    requires At(scenario, k, d.ids, d.fixture) && Agrees(gaps, scenario, d.ids, Fold(scenario, k), d.fixture)
    ensures var next := DeliverNext(scenario, d, scenario.events[k]);
      && next.Some?
      && At(scenario, k + 1, next.value.ids, next.value.fixture)
      && Agrees(After(gaps, scenario, Fold(scenario, k), scenario.events[k]), scenario, next.value.ids,
                Fold(scenario, k + 1), next.value.fixture)
  {
    hide At, Agrees, Build, Accepts, Commit, After, Fold, Applicable;
    Resolves(scenario, k);
    BuildsBefore(scenario, k, d.ids, d.fixture);
    AgreesAfterCommit(gaps, scenario, k, d.ids, d.fixture);
    AtCommit(scenario, k, d.ids, d.fixture);
  }

  lemma StartAgrees(scenario: Scenario, baseline: Fixture)
    requires Pristine(scenario.events, baseline)
    ensures At(scenario, 0, map[], baseline)
    ensures Agrees(NoGaps, scenario, map[], Fold(scenario, 0), baseline)
  {
    AtStart(scenario, baseline);
  }

  /** Delta replay refines the fold, for every loaded scenario: after each event every bug has the folded
      `cc`, `keywords` and `groups`, and every edge stands as folded, but for the self-edges that have
      slipped, which stand the other way. */
  lemma DeltaReplayRefinesFold(scenario: Scenario, baseline: Fixture, k: nat, a: string, c: string)
    requires Replayable(scenario) && Declared(scenario) && Pristine(scenario.events, baseline) && k <= |scenario.events|
    requires a in Fold(scenario, k).bugs && c in Fold(scenario, k).bugs
    ensures Deliver(scenario, baseline, k).Some?
    ensures var ids, fixture := Deliver(scenario, baseline, k).value.ids, Deliver(scenario, baseline, k).value.fixture;
      && BugRef(a) in ids && BugRef(c) in ids && ids[BugRef(a)] in fixture.bugs
      && var expected, bug := Fold(scenario, k).bugs[a], fixture.bugs[ids[BugRef(a)]];
         && Elements(bug.cc) == expected.cc
         && Elements(bug.keywords) == expected.keywords && Elements(bug.groups) == expected.groups
         && (ids[BugRef(c)] in bug.dependsOn <==>
              (c in expected.dependsOn) != (a == c && a in Faultless(scenario, k).maySlip))
         && (ids[BugRef(c)] in bug.blocks <==>
              (c in expected.blocks) != (a == c && a in Faultless(scenario, k).maySlip))
  {
    hide Replayable, Fold, Faultless;
    DeliveryAgrees(scenario, baseline, k);
    ReplayableLoads(scenario);
    FaultlessIsExact(scenario, k);
    FoldSound(scenario, k);
    var d := Deliver(scenario, baseline, k).value;
    NamesExact(Faultless(scenario, k), scenario, d.ids, Fold(scenario, k), d.fixture, a);
    EdgesExact(Faultless(scenario, k), scenario, d.ids, Fold(scenario, k), d.fixture, a, c);
  }

  lemma ReplayableLoads(scenario: Scenario)
    requires Replayable(scenario)
    ensures WellFormed(scenario.emails, scenario.events)
  {
  }

  lemma NamesExact(gaps: Gaps, scenario: Scenario, ids: IdTable, exp: Expectation, fixture: Fixture, a: string)
    requires Agrees(gaps, scenario, ids, exp, fixture) && a in exp.bugs && gaps.mayMiss == {}
    ensures BugRef(a) in ids && ids[BugRef(a)] in fixture.bugs
    ensures var expected, bug := exp.bugs[a], fixture.bugs[ids[BugRef(a)]];
      && Elements(bug.cc) == expected.cc
      && Elements(bug.keywords) == expected.keywords && Elements(bug.groups) == expected.groups
  {
    AgreeingBug(gaps, scenario, ids, exp, fixture, a);
  }

  lemma EdgesExact(gaps: Gaps, scenario: Scenario, ids: IdTable, exp: Expectation, fixture: Fixture, a: string,
                   c: string)
    requires Agrees(gaps, scenario, ids, exp, fixture) && EdgesConsistent(exp.bugs)
    requires a in exp.bugs && c in exp.bugs && gaps.maySlip == gaps.mustSlip
    ensures BugRef(a) in ids && BugRef(c) in ids && ids[BugRef(a)] in fixture.bugs
    ensures var expected, bug := exp.bugs[a], fixture.bugs[ids[BugRef(a)]];
      && (ids[BugRef(c)] in bug.dependsOn <==> (c in expected.dependsOn) != (a == c && a in gaps.maySlip))
      && (ids[BugRef(c)] in bug.blocks <==> (c in expected.blocks) != (a == c && a in gaps.maySlip))
  {
    if a == c {
      assert SelfAgrees(gaps, ids, exp.bugs, fixture.bugs, a);
    } else {
      assert PairAgrees(ids, exp.bugs, fixture.bugs, a, c);
    }
  }
}
