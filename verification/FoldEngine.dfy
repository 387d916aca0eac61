/** The fold as it runs: mutable bug states edited event by event, both endpoints of every edge
    included. Each handler is proved against the value-level fold. */
module FoldEngine {
  import opened Prelude
  import opened Scenarios
  import opened Actions
  import opened Expected

  /** `_Bug`. */
  class BugState {
    const creator: string
    const description: string
    var scalars: map<string, string>
    var custom: map<string, CustomValue>
    var flags: map<string, ExpectedFlag>
    var cc: set<string>
    var keywords: set<string>
    var groups: set<string>
    var dependsOn: set<string>
    var blocks: set<string>
    var duplicateOf: Option<string>
    var unasserted: set<string>
    var comments: seq<ExpectedComment>
    var attachments: seq<ExpectedAttachment>

    /** `_freeze`. */
    function Frozen(): ExpectedBug
      reads this
    {
      ExpectedBug(creator, description, scalars, custom, flags, cc, keywords, groups, dependsOn, blocks,
                  duplicateOf, unasserted, comments, attachments)
    }

    constructor (b: ExpectedBug)
      ensures Frozen() == b
    {
      creator, description, scalars, custom, flags := b.creator, b.description, b.scalars, b.custom, b.flags;
      cc, keywords, groups, dependsOn, blocks := b.cc, b.keywords, b.groups, b.dependsOn, b.blocks;
      duplicateOf, unasserted, comments, attachments := b.duplicateOf, b.unasserted, b.comments, b.attachments;
    }

    method SetDependsOn(members: set<string>)
      modifies this
      ensures Frozen() == old(Frozen()).(dependsOn := members)
    {
      dependsOn := members;
    }

    method SetBlocks(members: set<string>)
      modifies this
      ensures Frozen() == old(Frozen()).(blocks := members)
    {
      blocks := members;
    }

    /** `_update_scalar`, with the resolution that goes when a status is declared alone. */
    method SetScalars(declared: map<string, string>)
      modifies this`scalars
      ensures scalars == UpdatedScalars(old(scalars), declared)
    {
      scalars := scalars + declared;
      if "status" in declared && "resolution" !in declared {
        scalars := scalars - {"resolution"};
      }
    }

    /** `_update_other`. */
    method SetOther(event: Event)
      requires event.action.BugUpdate?
      modifies this`duplicateOf, this`unasserted
      ensures Frozen() == UpdatedOther(event, old(Frozen()))
    {
      var a := event.action;
      if a.duplicateOf.Some? {
        duplicateOf := a.duplicateOf;
        if "status" !in a.scalars { unasserted := unasserted + SERVER_DRIVEN; }
      }
    }

    method SetNames(scenario: Scenario, event: Event)
      requires event.action.BugUpdate? && Actors(event) <= scenario.emails.Keys
      modifies this
      ensures Frozen() == UpdatedNames(scenario, event, old(Frozen()))
    {
      var a := event.action;
      SetScalars(a.scalars);
      if a.newCc.Some? { cc := Elements(Emails(scenario.emails, a.newCc.value)); }
      if a.newKeywords.Some? { keywords := Elements(a.newKeywords.value); }
      if a.newGroups.Some? { groups := Elements(a.newGroups.value); }
      SetOther(event);
    }

    method AddComment(comment: ExpectedComment)
      modifies this
      ensures Frozen() == old(Frozen()).(comments := old(Frozen()).comments + [comment])
    {
      comments := comments + [comment];
    }

    method AddAttachment(attachment: ExpectedAttachment)
      modifies this
      ensures Frozen() == old(Frozen()).(attachments := old(Frozen()).attachments + [attachment])
    {
      attachments := attachments + [attachment];
    }

    /** `bug.attachments[bug.attachments.index(current)] = updated`. */
    method ReplaceAttachment(current: ExpectedAttachment, updated: ExpectedAttachment)
      modifies this
      ensures Frozen() == old(Frozen()).(attachments := ReplaceFirst(old(Frozen()).attachments, current, updated))
    {
      for i := 0 to |attachments|
        invariant unchanged(this) && current !in attachments[..i]
        invariant ReplaceFirst(attachments, current, updated)
               == attachments[..i] + ReplaceFirst(attachments[i..], current, updated)
      {
        assert attachments[i..][1..] == attachments[i + 1..]
            && attachments[..i + 1] == attachments[..i] + [attachments[i]];
        if attachments[i] == current {
          assert ReplaceFirst(attachments[i..], current, updated) == [updated] + attachments[i + 1..];
          attachments := attachments[..i] + [updated] + attachments[i + 1..];
          return;
        }
      }
    }

    method SetCustom(values: map<string, CustomValue>)
      modifies this
      ensures Frozen() == old(Frozen()).(custom := old(Frozen()).custom + values)
    {
      custom := custom + values;
    }

    /** `_flag` on its bug. */
    method SetFlag(scenario: Scenario, event: Event)
      requires event.action.BugFlag? && Actors(event) <= scenario.emails.Keys
      modifies this
      ensures Frozen() == FlaggedBug(scenario, event, old(Frozen()))
    {
      var a := event.action;
      flags := map t | t in flags && t != a.flagType :: flags[t];
      if a.status != 'X' {
        if a.requestee.Some? { cc := cc + {scenario.emails[a.requestee.value]}; }
        flags := flags[a.flagType := ExpectedFlag(a.status, a.requestee)];
      }
    }
  }

  class Folder {
    const scenario: Scenario
    var bugs: map<string, BugState>
    var attachments: map<string, ExpectedAttachment>

    ghost predicate Valid()
      reads this
    {
      forall a, b | a in bugs && b in bugs && a != b :: bugs[a] != bugs[b]
    }

    ghost function Frozen(): map<string, ExpectedBug>
      reads this, bugs.Values
    {
      map a | a in bugs :: bugs[a].Frozen()
    }

    ghost function View(): Expectation
      reads this, bugs.Values
    {
      Expectation(Frozen(), attachments)
    }

    constructor (scenario: Scenario)
      ensures Valid() && this.scenario == scenario && View() == Nothing && bugs == map[]
    {
      this.scenario := scenario;
      bugs, attachments := map[], map[];
    }

    /** Discards `bug` in every other endpoint's `blocks`. */
    method DropFromBlocks(others: set<string>, bug: string)
      requires Valid() && others <= bugs.Keys
      modifies bugs.Values
      ensures forall a | a in bugs :: bugs[a].Frozen() == WithoutBlocker(old(bugs[a].Frozen()), a in others, bug)
    {
      ghost var before := Frozen();
      var rest := others;
      while rest != {}
        invariant rest <= others
        invariant forall a | a in bugs :: bugs[a].Frozen() == WithoutBlocker(before[a], a in others - rest, bug)
        decreases rest
      {
        var other :| other in rest;
        assert bugs[other].blocks == bugs[other].Frozen().blocks;
        bugs[other].SetBlocks(bugs[other].blocks - {bug});
        rest := rest - {other};
      }
    }

    /** Adds `bug` in every other endpoint's `blocks`. */
    method AddToBlocks(others: set<string>, bug: string)
      requires Valid() && others <= bugs.Keys
      modifies bugs.Values
      ensures forall a | a in bugs :: bugs[a].Frozen() == WithBlocker(old(bugs[a].Frozen()), a in others, bug)
    {
      ghost var before := Frozen();
      var rest := others;
      while rest != {}
        invariant rest <= others
        invariant forall a | a in bugs :: bugs[a].Frozen() == WithBlocker(before[a], a in others - rest, bug)
        decreases rest
      {
        var other :| other in rest;
        assert bugs[other].blocks == bugs[other].Frozen().blocks;
        bugs[other].SetBlocks(bugs[other].blocks + {bug});
        rest := rest - {other};
      }
    }

    /** Discards `bug` in every other endpoint's `depends_on`. */
    method DropFromDependsOn(others: set<string>, bug: string)
      requires Valid() && others <= bugs.Keys
      modifies bugs.Values
      ensures forall a | a in bugs :: bugs[a].Frozen() == WithoutDependency(old(bugs[a].Frozen()), a in others, bug)
    {
      ghost var before := Frozen();
      var rest := others;
      while rest != {}
        invariant rest <= others
        invariant forall a | a in bugs :: bugs[a].Frozen() == WithoutDependency(before[a], a in others - rest, bug)
        decreases rest
      {
        var other :| other in rest;
        assert bugs[other].dependsOn == bugs[other].Frozen().dependsOn;
        bugs[other].SetDependsOn(bugs[other].dependsOn - {bug});
        rest := rest - {other};
      }
    }

    /** Adds `bug` in every other endpoint's `depends_on`. */
    method AddToDependsOn(others: set<string>, bug: string)
      requires Valid() && others <= bugs.Keys
      modifies bugs.Values
      ensures forall a | a in bugs :: bugs[a].Frozen() == WithDependency(old(bugs[a].Frozen()), a in others, bug)
    {
      ghost var before := Frozen();
      var rest := others;
      while rest != {}
        invariant rest <= others
        invariant forall a | a in bugs :: bugs[a].Frozen() == WithDependency(before[a], a in others - rest, bug)
        decreases rest
      {
        var other :| other in rest;
        assert bugs[other].dependsOn == bugs[other].Frozen().dependsOn;
        bugs[other].SetDependsOn(bugs[other].dependsOn + {bug});
        rest := rest - {other};
      }
    }

    /** `_link` for `depends_on`: this bug's set, and the inverse on every bug that came or went. */
    method LinkDependsOn(bug: string, declared: set<string>)
      requires Valid() && bug in bugs && declared <= bugs.Keys && bugs[bug].dependsOn <= bugs.Keys
      modifies bugs.Values
      ensures Valid() && Frozen() == Expected.LinkDependsOn(old(Frozen()), bug, declared)
    {
      assert bugs[bug].dependsOn == bugs[bug].Frozen().dependsOn;
      hide BugState.Frozen, WithBlocker, WithoutBlocker;
      ghost var before := Frozen();
      var current := bugs[bug].dependsOn;
      DropFromBlocks(current - declared, bug);
      AddToBlocks(declared - current, bug);
      bugs[bug].SetDependsOn(declared);
      DependsOnLinked(before, bug, declared, Frozen());
    }

    /** `_link` for `blocks`. */
    method LinkBlocks(bug: string, declared: set<string>)
      requires Valid() && bug in bugs && declared <= bugs.Keys && bugs[bug].blocks <= bugs.Keys
      modifies bugs.Values
      ensures Valid() && Frozen() == Expected.LinkBlocks(old(Frozen()), bug, declared)
    {
      assert bugs[bug].blocks == bugs[bug].Frozen().blocks;
      hide BugState.Frozen, WithDependency, WithoutDependency;
      ghost var before := Frozen();
      var current := bugs[bug].blocks;
      DropFromDependsOn(current - declared, bug);
      AddToDependsOn(declared - current, bug);
      bugs[bug].SetBlocks(declared);
      BlocksLinked(before, bug, declared, Frozen());
    }

    lemma FrozenEdges(bug: string)
      requires bug in bugs && EdgesConsistent(Frozen())
      ensures bugs[bug].dependsOn <= bugs.Keys && bugs[bug].blocks <= bugs.Keys
    {
      var frozen := Frozen();
      assert frozen.Keys == bugs.Keys;
      assert bugs[bug].dependsOn == frozen[bug].dependsOn && bugs[bug].blocks == frozen[bug].blocks;
      assert bug in frozen && forall c | c in frozen[bug].dependsOn :: c in frozen;
    }

    /** Both declared edge sets of one bug, `depends_on` first. */
    method LinkBoth(bug: string, dependsOn: Option<seq<string>>, blocks: Option<seq<string>>)
      requires Valid() && bug in bugs && EdgesConsistent(Frozen())
      requires Elements(OptionalList(dependsOn)) <= bugs.Keys && Elements(OptionalList(blocks)) <= bugs.Keys
      modifies bugs.Values
      ensures Valid() && Frozen() == OptionalLinks(old(Frozen()), bug, dependsOn, blocks)
    {
      hide BugState.Frozen, Expected.LinkDependsOn, Expected.LinkBlocks, EdgesConsistent;
      FrozenEdges(bug);
      if dependsOn.Some? {
        LinkDependsOnConsistent(Frozen(), bug, Elements(dependsOn.value));
        LinkDependsOn(bug, Elements(dependsOn.value));
      }
      FrozenEdges(bug);
      if blocks.Some? { LinkBlocks(bug, Elements(blocks.value)); }
    }

    /** `_create`. */
    method Create(event: Event, ghost created: set<Ref>)
      requires Valid() && event.action.BugCreate?
      requires Sound(View(), created) && Resolvable(scenario, event, created)
      modifies this, bugs.Values
      ensures Valid() && View() == FoldCreate(scenario, old(View()), event)
      ensures forall o | o in bugs.Values :: o in old(bugs.Values) || fresh(o)
    {
      hide BugState.Frozen, EdgesConsistent, OptionalLinks;
      var a := event.action;
      assert BugRef(a.bug) in Creates(event);
      RefsAreKeys(View(), created, a.dependsOn);
      RefsAreKeys(View(), created, a.blocks);
      UnlinkedBugPlaced(Frozen(), a.bug, NewBug(scenario, event));
      ghost var placed := Frozen()[a.bug := NewBug(scenario, event)];
      var made := new BugState(NewBug(scenario, event));
      bugs := bugs[a.bug := made];
      assert Frozen() == placed;
      LinkBoth(a.bug, Some(a.dependsOn), Some(a.blocks));
    }

    /** `_update`. */
    method Update(event: Event, ghost created: set<Ref>)
      requires Valid() && event.action.BugUpdate?
      requires Sound(View(), created) && Resolvable(scenario, event, created) && Applicable(View(), event)
      modifies bugs.Values
      ensures Valid() && View() == FoldUpdate(scenario, old(View()), event)
    {
      hide BugState.Frozen, EdgesConsistent, OptionalLinks, UpdatedNames, AttachmentsConsistent, OptionalEmails;
      var a := event.action;
      RefsAreKeys(View(), created, OptionalList(a.newDependsOn));
      RefsAreKeys(View(), created, OptionalList(a.newBlocks));
      ghost var before := Frozen();
      NamesKeepEdges(scenario, event, before[a.bug]);
      bugs[a.bug].SetNames(scenario, event);
      assert Frozen() == before[a.bug := UpdatedNames(scenario, event, before[a.bug])];
      EdgesFramed(before, Frozen());
      LinkBoth(a.bug, a.newDependsOn, a.newBlocks);
    }

    /** `_attachment_update`. */
    method UpdateAttachment(event: Event)
      requires Valid() && event.action.AttachmentUpdate? && Applicable(View(), event)
      modifies this`attachments, bugs.Values
      ensures Valid() && View() == FoldAttachmentUpdate(old(View()), event)
    {
      hide BugState.Frozen;
      var current := attachments[event.action.attachment];
      var updated := UpdatedAttachment(event, current);
      attachments := attachments[event.action.attachment := updated];
      bugs[current.bug].ReplaceAttachment(current, updated);
    }

    /** The handlers that edit one bug's own fields. */
    method EditOne(event: Event)
      requires Valid() && Actors(event) <= scenario.emails.Keys && Applicable(View(), event)
      requires event.action.BugComment? || event.action.BugWorktime? || event.action.BugAttach?
            || event.action.BugCustomFieldSet? || event.action.BugFlag?
      modifies this`attachments, bugs.Values
      ensures Valid() && View() == FoldStep(scenario, old(View()), event)
    {
      hide BugState.Frozen, FlaggedBug;
      var bug := bugs[event.action.bug];
      match event.action
      case BugComment(_, _, isPrivate) =>
        bug.AddComment(ExpectedComment(Some(MarkerOf(scenario, event)), event.actor, isPrivate, None));
      case BugWorktime(_, _, _) =>
        bug.AddComment(ExpectedComment(Some(MarkerOf(scenario, event)), event.actor, false, None));
      case BugAttach(attachment, _, _, _, _, _) =>
        var made := NewAttachment(scenario, event);
        attachments := attachments[attachment := made];
        bug.AddAttachment(made);
      case BugCustomFieldSet(_, values) =>
        bug.SetCustom(values);
      case BugFlag(_, _, _, _) =>
        bug.SetFlag(scenario, event);
    }

    /** `_apply`. */
    method Apply(event: Event, ghost created: set<Ref>)
      requires Valid() && Sound(View(), created) && Resolvable(scenario, event, created) && Applicable(View(), event)
      modifies this, bugs.Values
      ensures Valid() && View() == FoldStep(scenario, old(View()), event)
      ensures forall o | o in bugs.Values :: o in old(bugs.Values) || fresh(o)
    {
      hide Sound, FoldCreate, FoldUpdate, FoldAttachmentUpdate;
      match event.action
      case BugCreate(_, _, _, _, _, _, _, _, _) => Create(event, created);
      case BugUpdate(_, _, _, _, _, _, _, _, _) => Update(event, created);
      case AttachmentUpdate(_, _, _) => UpdateAttachment(event);
      case _ => EditOne(event);
    }
  }

  /** `fold`: every event in order, from nothing. */
  method FoldScenario(scenario: Scenario) returns (folder: Folder)
    requires WellFormed(scenario.emails, scenario.events)
    ensures fresh(folder) && folder.Valid() && folder.View() == Fold(scenario, |scenario.events|)
  {
    hide FoldStep;
    folder := new Folder(scenario);
    for k := 0 to |scenario.events|
      invariant fresh(folder) && folder.Valid() && folder.scenario == scenario
      invariant forall o | o in folder.bugs.Values :: fresh(o)
      invariant folder.View() == Fold(scenario, k)
    {
      FoldSound(scenario, k);
      FoldNext(scenario, k);
      folder.Apply(scenario.events[k], CreatedBefore(scenario.events, k));
    }
  }

  lemma NamesKeepEdges(scenario: Scenario, event: Event, b: ExpectedBug)
    requires event.action.BugUpdate? && Actors(event) <= scenario.emails.Keys
    ensures UpdatedNames(scenario, event, b).dependsOn == b.dependsOn
        && UpdatedNames(scenario, event, b).blocks == b.blocks
  {
  }

  /** `_link` one bug at a time. */
  lemma DependsOnLinked(bugs: map<string, ExpectedBug>, bug: string, declared: set<string>,
                        linked: map<string, ExpectedBug>)
    requires bug in bugs && linked.Keys == bugs.Keys
    requires var current := bugs[bug].dependsOn;
      forall a | a in bugs :: linked[a] ==
        (var b := WithBlocker(WithoutBlocker(bugs[a], a in current - declared, bug), a in declared - current, bug);
         if a == bug then b.(dependsOn := declared) else b)
    ensures linked == Expected.LinkDependsOn(bugs, bug, declared)
  {
  }

  lemma BlocksLinked(bugs: map<string, ExpectedBug>, bug: string, declared: set<string>,
                     linked: map<string, ExpectedBug>)
    requires bug in bugs && linked.Keys == bugs.Keys
    requires var current := bugs[bug].blocks;
      forall a | a in bugs :: linked[a] ==
        (var b := WithDependency(WithoutDependency(bugs[a], a in current - declared, bug),
                                 a in declared - current, bug);
         if a == bug then b.(blocks := declared) else b)
    ensures linked == Expected.LinkBlocks(bugs, bug, declared)
  {
  }

  function WithoutBlocker(b: ExpectedBug, hit: bool, bug: string): ExpectedBug
  {
    if hit then b.(blocks := b.blocks - {bug}) else b
  }

  function WithBlocker(b: ExpectedBug, hit: bool, bug: string): ExpectedBug
  {
    if hit then b.(blocks := b.blocks + {bug}) else b
  }

  function WithoutDependency(b: ExpectedBug, hit: bool, bug: string): ExpectedBug
  {
    if hit then b.(dependsOn := b.dependsOn - {bug}) else b
  }

  function WithDependency(b: ExpectedBug, hit: bool, bug: string): ExpectedBug
  {
    if hit then b.(dependsOn := b.dependsOn + {bug}) else b
  }
}
