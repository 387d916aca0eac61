/** The state a scenario is expected to leave behind, folded event by event from the declared
    values alone. */
module Expected {
  import opened Prelude
  import opened Markers
  import opened Scenarios
  import opened Actions

  /** `marker` is absent for the create description, and `text` is present only there. */
  datatype ExpectedComment = ExpectedComment(marker: Option<string>, author: string, isPrivate: bool,
                                             text: Option<string>)

  datatype ExpectedAttachment = ExpectedAttachment(
    alias: string, bug: string, marker: string, author: string, summary: string, contentType: string,
    isPrivate: bool, obsolete: bool, sha256: string)

  /** `requestee` is an actor name. */
  datatype ExpectedFlag = ExpectedFlag(status: char, requestee: Option<string>)

  /** What the server sets itself when it marks a duplicate. */
  const SERVER_DRIVEN := {"status", "resolution"}

  /** A name set or edge set that no event declared is empty. `unasserted` are the scalars the fold no
      longer makes a claim about. */
  datatype ExpectedBug = ExpectedBug(
    creator: string, description: string, scalars: map<string, string>, custom: map<string, CustomValue>,
    flags: map<string, ExpectedFlag>, cc: set<string>, keywords: set<string>, groups: set<string>,
    dependsOn: set<string>, blocks: set<string>, duplicateOf: Option<string>, unasserted: set<string>,
    comments: seq<ExpectedComment>, attachments: seq<ExpectedAttachment>)

  datatype Expectation = Expectation(bugs: map<string, ExpectedBug>, attachments: map<string, ExpectedAttachment>)

  const Nothing := Expectation(map[], map[])

  function EmailSet(emails: map<string, string>, actors: seq<string>): set<string>
    requires Elements(actors) <= emails.Keys
  {
    Elements(Emails(emails, actors))
  }

  /** `_link` for `depends_on`: replace the set and keep every other endpoint's `blocks` in step. */
  function LinkDependsOn(bugs: map<string, ExpectedBug>, bug: string, declared: set<string>)
    : map<string, ExpectedBug>
    requires bug in bugs
  {
    var current := bugs[bug].dependsOn;
    map a | a in bugs ::
      var b := bugs[a];
      b.(dependsOn := if a == bug then declared else b.dependsOn,
         blocks := if a in current - declared then b.blocks - {bug}
                   else if a in declared - current then b.blocks + {bug}
                   else b.blocks)
  }

  /** `_link` for `blocks`. */
  function LinkBlocks(bugs: map<string, ExpectedBug>, bug: string, declared: set<string>)
    : map<string, ExpectedBug>
    requires bug in bugs
  {
    var current := bugs[bug].blocks;
    map a | a in bugs ::
      var b := bugs[a];
      b.(blocks := if a == bug then declared else b.blocks,
         dependsOn := if a in current - declared then b.dependsOn - {bug}
                      else if a in declared - current then b.dependsOn + {bug}
                      else b.dependsOn)
  }

  function OptionalLinks(bugs: map<string, ExpectedBug>, bug: string,
                         dependsOn: Option<seq<string>>, blocks: Option<seq<string>>): map<string, ExpectedBug>
    requires bug in bugs
  {
    var first := if dependsOn.Some? then LinkDependsOn(bugs, bug, Elements(dependsOn.value)) else bugs;
    if blocks.Some? then LinkBlocks(first, bug, Elements(blocks.value)) else first
  }

  function OptionalSet(declared: Option<seq<string>>, current: set<string>): set<string>
  {
    if declared.Some? then Elements(declared.value) else current
  }

  /** Declared scalars over the current ones. An update that declares a status without a resolution
      makes no claim about the resolution any more. */
  function UpdatedScalars(current: map<string, string>, declared: map<string, string>): (r: map<string, string>)
    ensures forall k | k in declared :: k in r && r[k] == declared[k]
    ensures "resolution" in r && "status" in declared ==> "resolution" in declared
  {
    var overlaid := current + declared;
    if "status" in declared && "resolution" !in declared then overlaid - {"resolution"} else overlaid
  }

  /** `_update_other`: the bug it is declared a duplicate of. The server then drives status and resolution
      itself, unless the update declares a status. */
  function UpdatedOther(event: Event, b: ExpectedBug): ExpectedBug
    requires event.action.BugUpdate?
  {
    var a := event.action;
    if a.duplicateOf.None? then b
    else b.(duplicateOf := a.duplicateOf,
            unasserted := if "status" in a.scalars then b.unasserted else b.unasserted + SERVER_DRIVEN)
  }

  /** The bug's own fields after an update. */
  function UpdatedNames(scenario: Scenario, event: Event, b: ExpectedBug): ExpectedBug
    requires event.action.BugUpdate? && Actors(event) <= scenario.emails.Keys
  {
    var a := event.action;
    var named := b.(scalars := UpdatedScalars(b.scalars, a.scalars),
                    cc := OptionalSet(OptionalEmails(scenario.emails, a.newCc), b.cc),
                    keywords := OptionalSet(a.newKeywords, b.keywords),
                    groups := OptionalSet(a.newGroups, b.groups));
    UpdatedOther(event, named)
  }

  function FlaggedBug(scenario: Scenario, event: Event, b: ExpectedBug): ExpectedBug
    requires event.action.BugFlag? && Actors(event) <= scenario.emails.Keys
  {
    var a := event.action;
    var cleared := map t | t in b.flags && t != a.flagType :: b.flags[t];
    if a.status == 'X' then b.(flags := cleared)
    else
      b.(flags := cleared[a.flagType := ExpectedFlag(a.status, a.requestee)],
         cc := if a.requestee.Some? then b.cc + {scenario.emails[a.requestee.value]} else b.cc)
  }

  function FoldComment(exp: Expectation, bug: string, comment: ExpectedComment): Expectation
    requires bug in exp.bugs
  {
    var b := exp.bugs[bug];
    exp.(bugs := exp.bugs[bug := b.(comments := b.comments + [comment])])
  }

  function NewBug(scenario: Scenario, event: Event): ExpectedBug
    requires event.action.BugCreate? && Actors(event) <= scenario.emails.Keys
  {
    var a := event.action;
    ExpectedBug(event.actor, a.description, a.scalars, map[], map[],
                EmailSet(scenario.emails, a.cc), Elements(a.keywords), Elements(a.groups), {}, {}, None, {},
                [ExpectedComment(None, event.actor, false, Some(a.description))], [])
  }

  function NewAttachment(scenario: Scenario, event: Event): ExpectedAttachment
    requires event.action.BugAttach?
  {
    var a := event.action;
    ExpectedAttachment(a.attachment, a.bug, MarkerOf(scenario, event), event.actor,
                       RenderAttachmentSummary(a.description, MarkerOf(scenario, event), a.sha256),
                       a.contentType, a.isPrivate, false, a.sha256)
  }

  function UpdatedAttachment(event: Event, current: ExpectedAttachment): ExpectedAttachment
    requires event.action.AttachmentUpdate?
  {
    var a := event.action;
    current.(obsolete := a.obsolete,
             summary := if a.newDescription.Some?
                        then RenderAttachmentSummary(a.newDescription.value, current.marker, current.sha256)
                        else current.summary)
  }

  /** `items[items.index(current)] = updated`. */
  function ReplaceFirst<T(==)>(items: seq<T>, current: T, updated: T): seq<T>
  {
    if items == [] then []
    else if items[0] == current then [updated] + items[1..]
    else [items[0]] + ReplaceFirst(items[1..], current, updated)
  }

  /** Whether the event's target exists, so that applying it raises no `KeyError`. */
  predicate Applicable(exp: Expectation, event: Event)
  {
    match event.action
    case BugCreate(_, _, _, _, _, _, _, _, _) => true
    case AttachmentUpdate(attachment, _, _) =>
      attachment in exp.attachments && exp.attachments[attachment].bug in exp.bugs
    case _ => event.action.bug in exp.bugs
  }

  function FoldCreate(scenario: Scenario, exp: Expectation, event: Event): Expectation
    requires event.action.BugCreate? && Actors(event) <= scenario.emails.Keys
  {
    var a := event.action;
    exp.(bugs := OptionalLinks(exp.bugs[a.bug := NewBug(scenario, event)], a.bug, Some(a.dependsOn), Some(a.blocks)))
  }

  function FoldUpdate(scenario: Scenario, exp: Expectation, event: Event): Expectation
    requires event.action.BugUpdate? && Actors(event) <= scenario.emails.Keys && Applicable(exp, event)
  {
    var a := event.action;
    exp.(bugs := OptionalLinks(exp.bugs[a.bug := UpdatedNames(scenario, event, exp.bugs[a.bug])],
                               a.bug, a.newDependsOn, a.newBlocks))
  }

  function FoldAttach(scenario: Scenario, exp: Expectation, event: Event): Expectation
    requires event.action.BugAttach? && Applicable(exp, event)
  {
    var a := event.action;
    var made := NewAttachment(scenario, event);
    var b := exp.bugs[a.bug];
    Expectation(exp.bugs[a.bug := b.(attachments := b.attachments + [made])], exp.attachments[a.attachment := made])
  }

  function FoldAttachmentUpdate(exp: Expectation, event: Event): Expectation
    requires event.action.AttachmentUpdate? && Applicable(exp, event)
  {
    var current := exp.attachments[event.action.attachment];
    var updated := UpdatedAttachment(event, current);
    var b := exp.bugs[current.bug];
    Expectation(exp.bugs[current.bug := b.(attachments := ReplaceFirst(b.attachments, current, updated))],
                exp.attachments[event.action.attachment := updated])
  }

  /** `_apply`: the fold of one event. */
  function FoldStep(scenario: Scenario, exp: Expectation, event: Event): Expectation
    requires Actors(event) <= scenario.emails.Keys && Applicable(exp, event)
  {
    match event.action
    case BugCreate(_, _, _, _, _, _, _, _, _) => FoldCreate(scenario, exp, event)
    case BugUpdate(_, _, _, _, _, _, _, _, _) => FoldUpdate(scenario, exp, event)
    case BugComment(bug, _, isPrivate) =>
      FoldComment(exp, bug, ExpectedComment(Some(MarkerOf(scenario, event)), event.actor, isPrivate, None))
    case BugWorktime(bug, _, _) =>
      FoldComment(exp, bug, ExpectedComment(Some(MarkerOf(scenario, event)), event.actor, false, None))
    case BugAttach(_, _, _, _, _, _) => FoldAttach(scenario, exp, event)
    case AttachmentUpdate(_, _, _) => FoldAttachmentUpdate(exp, event)
    case BugCustomFieldSet(bug, values) =>
      var b := exp.bugs[bug];
      exp.(bugs := exp.bugs[bug := b.(custom := b.custom + values)])
    case BugFlag(bug, _, _, _) =>
      exp.(bugs := exp.bugs[bug := FlaggedBug(scenario, event, exp.bugs[bug])])
  }

  // ----- What every fold of a well-formed scenario keeps -----

  /** The aliases and attachments present are exactly the created ones. */
  ghost predicate Covers(exp: Expectation, created: set<Ref>)
  {
    && (forall a :: a in exp.bugs <==> BugRef(a) in created)
    && (forall x :: x in exp.attachments <==> AttachmentRef(x) in created)
  }

  /** Edges stay inside the bug table and stand on both endpoints. */
  ghost predicate EdgesConsistent(bugs: map<string, ExpectedBug>)
  {
    && (forall a, c :: a in bugs && c in bugs[a].dependsOn ==> c in bugs && a in bugs[c].blocks)
    && (forall a, c :: a in bugs && c in bugs[a].blocks ==> c in bugs && a in bugs[c].dependsOn)
  }

  /** The table's entry is listed on the bug it names. */
  ghost predicate Homed(exp: Expectation, x: string)
    requires x in exp.attachments
  {
    var entry := exp.attachments[x];
    entry.alias == x && entry.bug in exp.bugs && entry in exp.bugs[entry.bug].attachments
  }

  /** The listed entry is the table's. */
  ghost predicate Listed(exp: Expectation, a: string, entry: ExpectedAttachment)
  {
    entry.alias in exp.attachments && entry == exp.attachments[entry.alias] && entry.bug == a
  }

  ghost predicate AliasesDiffer(items: seq<ExpectedAttachment>)
  {
    forall k, l :: 0 <= k < l < |items| ==> items[k].alias != items[l].alias
  }

  /** Each attachment is listed once, on its own bug, and the list agrees with the table. */
  ghost predicate AttachmentsConsistent(exp: Expectation)
  {
    && (forall x | x in exp.attachments :: Homed(exp, x))
    && (forall a, entry | a in exp.bugs && entry in exp.bugs[a].attachments :: Listed(exp, a, entry))
    && (forall a | a in exp.bugs :: AliasesDiffer(exp.bugs[a].attachments))
  }

  ghost predicate Sound(exp: Expectation, created: set<Ref>)
  {
    Covers(exp, created) && EdgesConsistent(exp.bugs) && AttachmentsConsistent(exp)
  }

  ghost predicate Resolvable(scenario: Scenario, event: Event, created: set<Ref>)
  {
    && Actors(event) <= scenario.emails.Keys
    && Uses(event) <= created
    && Creates(event) !! created
  }

  lemma ResolvableApplies(scenario: Scenario, exp: Expectation, event: Event, created: set<Ref>)
    requires Sound(exp, created) && Resolvable(scenario, event, created)
    ensures Applicable(exp, event)
  {
    match event.action
    case BugCreate(_, _, _, _, _, _, _, _, _) =>
    case AttachmentUpdate(attachment, _, _) => assert AttachmentRef(attachment) in Uses(event);
    case _ => assert BugRef(event.action.bug) in Uses(event);
  }

  lemma LinkDependsOnConsistent(bugs: map<string, ExpectedBug>, bug: string, declared: set<string>)
    requires EdgesConsistent(bugs) && bug in bugs && declared <= bugs.Keys
    ensures EdgesConsistent(LinkDependsOn(bugs, bug, declared))
  {
  }

  lemma LinkBlocksConsistent(bugs: map<string, ExpectedBug>, bug: string, declared: set<string>)
    requires EdgesConsistent(bugs) && bug in bugs && declared <= bugs.Keys
    ensures EdgesConsistent(LinkBlocks(bugs, bug, declared))
  {
  }

  /** An edge set replaced on either side stays symmetric, self-edges included. */
  lemma OptionalLinksConsistent(bugs: map<string, ExpectedBug>, bug: string,
                                dependsOn: Option<seq<string>>, blocks: Option<seq<string>>)
    requires EdgesConsistent(bugs) && bug in bugs
    requires Elements(OptionalList(dependsOn)) <= bugs.Keys && Elements(OptionalList(blocks)) <= bugs.Keys
    ensures EdgesConsistent(OptionalLinks(bugs, bug, dependsOn, blocks))
    ensures OptionalLinks(bugs, bug, dependsOn, blocks).Keys == bugs.Keys
  {
    var first := if dependsOn.Some? then LinkDependsOn(bugs, bug, Elements(dependsOn.value)) else bugs;
    if dependsOn.Some? { LinkDependsOnConsistent(bugs, bug, Elements(dependsOn.value)); }
    if blocks.Some? { LinkBlocksConsistent(first, bug, Elements(blocks.value)); }
  }

  /** Linking touches edges and nothing else. */
  lemma OptionalLinksFrame(bugs: map<string, ExpectedBug>, bug: string,
                           dependsOn: Option<seq<string>>, blocks: Option<seq<string>>)
    requires bug in bugs
    ensures var linked := OptionalLinks(bugs, bug, dependsOn, blocks);
      && linked.Keys == bugs.Keys
      && forall a | a in bugs ::
           linked[a] == bugs[a].(dependsOn := linked[a].dependsOn, blocks := linked[a].blocks)
  {
  }

  lemma RefsAreKeys(exp: Expectation, created: set<Ref>, names: seq<string>)
    requires Covers(exp, created) && BugRefs(names) <= created
    ensures Elements(names) <= exp.bugs.Keys
  {
    forall n | n in names ensures n in exp.bugs { assert BugRef(n) in BugRefs(names); }
  }

  lemma {:induction false} ReplaceFirstPoint(items: seq<ExpectedAttachment>, current: ExpectedAttachment,
                                             updated: ExpectedAttachment)
    requires updated.alias == current.alias
    requires current in items
    requires AliasesDiffer(items)
    ensures |ReplaceFirst(items, current, updated)| == |items|
    ensures forall k | 0 <= k < |items| ::
      ReplaceFirst(items, current, updated)[k] == if items[k].alias == current.alias then updated else items[k]
  {
    if items[0] == current {
      assert ReplaceFirst(items, current, updated) == [updated] + items[1..];
    } else {
      assert current in items[1..];
      ReplaceFirstPoint(items[1..], current, updated);
    }
  }

  /** A step that leaves every attachment list alone, and gives new bugs an empty one. */
  lemma AttachmentsFramed(exp: Expectation, next: Expectation)
    requires AttachmentsConsistent(exp)
    requires next.attachments == exp.attachments && exp.bugs.Keys <= next.bugs.Keys
    requires forall a | a in next.bugs ::
      next.bugs[a].attachments == if a in exp.bugs then exp.bugs[a].attachments else []
    ensures AttachmentsConsistent(next)
  {
    forall x | x in next.attachments ensures Homed(next, x) { assert Homed(exp, x); }
    forall a, entry | a in next.bugs && entry in next.bugs[a].attachments ensures Listed(next, a, entry) {
      assert Listed(exp, a, entry);
    }
  }

  lemma UnlinkedBugPlaced(bugs: map<string, ExpectedBug>, bug: string, b: ExpectedBug)
    requires EdgesConsistent(bugs) && bug !in bugs && b.dependsOn == {} && b.blocks == {}
    ensures EdgesConsistent(bugs[bug := b])
  {
  }

  /** The bug table after a create: one more bug, symmetric edges, every attachment list as it was. */
  lemma CreatedBugs(scenario: Scenario, exp: Expectation, event: Event, created: set<Ref>)
    requires event.action.BugCreate?
    requires Sound(exp, created) && Resolvable(scenario, event, created)
    ensures var next := FoldCreate(scenario, exp, event).bugs;
      && next.Keys == exp.bugs.Keys + {event.action.bug} && EdgesConsistent(next)
      && forall a | a in next :: next[a].attachments == if a in exp.bugs then exp.bugs[a].attachments else []
  {
    var bug := event.action.bug;
    assert BugRef(bug) in Creates(event);
    RefsAreKeys(exp, created, event.action.dependsOn);
    RefsAreKeys(exp, created, event.action.blocks);
    var placed := exp.bugs[bug := NewBug(scenario, event)];
    UnlinkedBugPlaced(exp.bugs, bug, NewBug(scenario, event));
    OptionalLinksConsistent(placed, bug, Some(event.action.dependsOn), Some(event.action.blocks));
    OptionalLinksFrame(placed, bug, Some(event.action.dependsOn), Some(event.action.blocks));
  }

  lemma CreateSound(scenario: Scenario, exp: Expectation, event: Event, created: set<Ref>)
    requires event.action.BugCreate?
    requires Sound(exp, created) && Resolvable(scenario, event, created)
    ensures Sound(FoldCreate(scenario, exp, event), created + Creates(event))
  {
    hide EdgesConsistent, AttachmentsConsistent, OptionalLinks;
    CreatedBugs(scenario, exp, event, created);
    AttachmentsFramed(exp, FoldCreate(scenario, exp, event));
  }

  /** The bug table after an update, likewise. */
  lemma UpdatedBugs(scenario: Scenario, exp: Expectation, event: Event, created: set<Ref>)
    requires event.action.BugUpdate?
    requires Sound(exp, created) && Resolvable(scenario, event, created) && Applicable(exp, event)
    ensures var next := FoldUpdate(scenario, exp, event).bugs;
      && next.Keys == exp.bugs.Keys && EdgesConsistent(next)
      && forall a | a in next :: next[a].attachments == exp.bugs[a].attachments
  {
    var bug := event.action.bug;
    RefsAreKeys(exp, created, OptionalList(event.action.newDependsOn));
    RefsAreKeys(exp, created, OptionalList(event.action.newBlocks));
    var named := exp.bugs[bug := UpdatedNames(scenario, event, exp.bugs[bug])];
    EdgesFramed(exp.bugs, named);
    OptionalLinksConsistent(named, bug, event.action.newDependsOn, event.action.newBlocks);
    OptionalLinksFrame(named, bug, event.action.newDependsOn, event.action.newBlocks);
  }

  lemma UpdateSound(scenario: Scenario, exp: Expectation, event: Event, created: set<Ref>)
    requires event.action.BugUpdate?
    requires Sound(exp, created) && Resolvable(scenario, event, created) && Applicable(exp, event)
    ensures Sound(FoldUpdate(scenario, exp, event), created)
  {
    hide EdgesConsistent, AttachmentsConsistent, OptionalLinks;
    UpdatedBugs(scenario, exp, event, created);
    AttachmentsFramed(exp, FoldUpdate(scenario, exp, event));
  }

  /** A new entry in the table and at the end of its bug's list. */
  lemma EntryAdded(exp: Expectation, next: Expectation, made: ExpectedAttachment)
    requires AttachmentsConsistent(exp) && made.alias !in exp.attachments && made.bug in exp.bugs
    requires next.attachments == exp.attachments[made.alias := made] && next.bugs.Keys == exp.bugs.Keys
    requires forall a | a in exp.bugs ::
      next.bugs[a].attachments == exp.bugs[a].attachments + if a == made.bug then [made] else []
    ensures AttachmentsConsistent(next)
  {
    var before, after := exp.bugs[made.bug].attachments, next.bugs[made.bug].attachments;
    assert after[|before|] == made;
    forall x | x in next.attachments ensures Homed(next, x) {
      if x != made.alias { assert Homed(exp, x); }
    }
    forall a, entry | a in next.bugs && entry in next.bugs[a].attachments ensures Listed(next, a, entry) {
      if entry != made { assert Listed(exp, a, entry); }
    }
    forall a | a in next.bugs ensures AliasesDiffer(next.bugs[a].attachments) {
      assert AliasesDiffer(exp.bugs[a].attachments);
      forall k | 0 <= k < |before| ensures before[k].alias != made.alias { assert Listed(exp, made.bug, before[k]); }
    }
  }

  lemma AttachSound(scenario: Scenario, exp: Expectation, event: Event, created: set<Ref>)
    requires event.action.BugAttach?
    requires Sound(exp, created) && Resolvable(scenario, event, created) && Applicable(exp, event)
    ensures Sound(FoldAttach(scenario, exp, event), created + Creates(event))
  {
    hide EdgesConsistent, AttachmentsConsistent, RenderAttachmentSummary;
    assert AttachmentRef(event.action.attachment) in Creates(event);
    EdgesFramed(exp.bugs, FoldAttach(scenario, exp, event).bugs);
    EntryAdded(exp, FoldAttach(scenario, exp, event), NewAttachment(scenario, event));
  }

  lemma EdgesFramed(bugs: map<string, ExpectedBug>, next: map<string, ExpectedBug>)
    requires EdgesConsistent(bugs) && next.Keys == bugs.Keys
    requires forall a | a in bugs :: next[a].dependsOn == bugs[a].dependsOn && next[a].blocks == bugs[a].blocks
    ensures EdgesConsistent(next)
  {
  }

  /** Replacing one entry, in the table and in its bug's list, keeps the two in step. */
  lemma EntryReplaced(exp: Expectation, next: Expectation, x: string, updated: ExpectedAttachment)
    requires AttachmentsConsistent(exp) && x in exp.attachments
    requires updated.alias == x && updated.bug == exp.attachments[x].bug
    requires next.attachments == exp.attachments[x := updated] && next.bugs.Keys == exp.bugs.Keys
    requires forall a | a in exp.bugs ::
      && |next.bugs[a].attachments| == |exp.bugs[a].attachments|
      && forall k | 0 <= k < |exp.bugs[a].attachments| ::
           next.bugs[a].attachments[k] ==
             if exp.bugs[a].attachments[k].alias == x then updated else exp.bugs[a].attachments[k]
    ensures AttachmentsConsistent(next)
  {
    forall y | y in next.attachments ensures Homed(next, y) {
      assert Homed(exp, y);
      var entry := exp.attachments[y];
      var k :| 0 <= k < |exp.bugs[entry.bug].attachments| && exp.bugs[entry.bug].attachments[k] == entry;
      assert next.bugs[entry.bug].attachments[k] == next.attachments[y];
    }
    forall a, entry | a in next.bugs && entry in next.bugs[a].attachments ensures Listed(next, a, entry) {
      var k :| 0 <= k < |next.bugs[a].attachments| && next.bugs[a].attachments[k] == entry;
      assert Listed(exp, a, exp.bugs[a].attachments[k]);
    }
    forall a | a in next.bugs ensures AliasesDiffer(next.bugs[a].attachments) {
      assert AliasesDiffer(exp.bugs[a].attachments);
    }
  }

  /** What `attachment.update` does to every bug's list. */
  lemma AttachmentUpdatePointwise(exp: Expectation, event: Event)
    requires event.action.AttachmentUpdate? && AttachmentsConsistent(exp) && Applicable(exp, event)
    ensures var x := event.action.attachment;
      var updated := UpdatedAttachment(event, exp.attachments[x]);
      var next := FoldAttachmentUpdate(exp, event);
      && next.attachments == exp.attachments[x := updated] && next.bugs.Keys == exp.bugs.Keys
      && forall a | a in exp.bugs ::
           && next.bugs[a] == exp.bugs[a].(attachments := next.bugs[a].attachments)
           && |next.bugs[a].attachments| == |exp.bugs[a].attachments|
           && forall k | 0 <= k < |exp.bugs[a].attachments| ::
                next.bugs[a].attachments[k] ==
                  if exp.bugs[a].attachments[k].alias == x then updated else exp.bugs[a].attachments[k]
  {
    var x := event.action.attachment;
    assert Homed(exp, x);
    var current := exp.attachments[x];
    ReplaceFirstPoint(exp.bugs[current.bug].attachments, current, UpdatedAttachment(event, current));
    forall a, k | a in exp.bugs && a != current.bug && 0 <= k < |exp.bugs[a].attachments|
      ensures exp.bugs[a].attachments[k].alias != x
    {
      assert Listed(exp, a, exp.bugs[a].attachments[k]);
    }
  }

  lemma AttachmentUpdateSound(scenario: Scenario, exp: Expectation, event: Event, created: set<Ref>)
    requires event.action.AttachmentUpdate?
    requires Sound(exp, created) && Resolvable(scenario, event, created) && Applicable(exp, event)
    ensures Sound(FoldAttachmentUpdate(exp, event), created)
  {
    var x := event.action.attachment;
    assert Homed(exp, x);
    AttachmentUpdatePointwise(exp, event);
    EdgesFramed(exp.bugs, FoldAttachmentUpdate(exp, event).bugs);
    EntryReplaced(exp, FoldAttachmentUpdate(exp, event), x, UpdatedAttachment(event, exp.attachments[x]));
  }

  /** The fold step keeps every part of soundness. */
  lemma FoldStepSound(scenario: Scenario, exp: Expectation, event: Event, created: set<Ref>)
    requires Sound(exp, created) && Resolvable(scenario, event, created)
    ensures Applicable(exp, event)
    ensures Sound(FoldStep(scenario, exp, event), created + Creates(event))
  {
    ResolvableApplies(scenario, exp, event, created);
    match event.action
    case BugCreate(_, _, _, _, _, _, _, _, _) => CreateSound(scenario, exp, event, created);
    case BugUpdate(_, _, _, _, _, _, _, _, _) => UpdateSound(scenario, exp, event, created);
    case BugAttach(_, _, _, _, _, _) => AttachSound(scenario, exp, event, created);
    case AttachmentUpdate(_, _, _) => AttachmentUpdateSound(scenario, exp, event, created);
    case _ => OneBugSound(scenario, exp, event, created);
  }

  lemma BugReplacedSound(exp: Expectation, bug: string, b: ExpectedBug, created: set<Ref>)
    requires Sound(exp, created) && bug in exp.bugs
    requires b.dependsOn == exp.bugs[bug].dependsOn && b.blocks == exp.bugs[bug].blocks
    requires b.attachments == exp.bugs[bug].attachments
    ensures Sound(exp.(bugs := exp.bugs[bug := b]), created)
  {
    var next := exp.(bugs := exp.bugs[bug := b]);
    EdgesFramed(exp.bugs, next.bugs);
    AttachmentsFramed(exp, next);
  }

  /** The actions that touch one bug's own fields. */
  lemma OneBugSound(scenario: Scenario, exp: Expectation, event: Event, created: set<Ref>)
    requires event.action.BugComment? || event.action.BugWorktime?
          || event.action.BugCustomFieldSet? || event.action.BugFlag?
    requires Sound(exp, created) && Resolvable(scenario, event, created) && Applicable(exp, event)
    ensures Sound(FoldStep(scenario, exp, event), created)
  {
    var bug := event.action.bug;
    BugReplacedSound(exp, bug, FoldStep(scenario, exp, event).bugs[bug], created);
  }

  /** The fold of the first `k` events. The guard never fails for a loaded scenario (`FoldNext`). */
  function Fold(scenario: Scenario, k: nat): Expectation
    requires k <= |scenario.events|
  {
    if k == 0 then Nothing
    else
      var before := Fold(scenario, k - 1);
      var event := scenario.events[k - 1];
      if Actors(event) <= scenario.emails.Keys && Applicable(before, event) then FoldStep(scenario, before, event)
      else before
  }

  /** No event of a loaded scenario misses its target: the fold is defined and stays sound. */
  lemma {:induction false} FoldSound(scenario: Scenario, k: nat)
    requires k <= |scenario.events| && WellFormed(scenario.emails, scenario.events)
    ensures Sound(Fold(scenario, k), CreatedBefore(scenario.events, k))
  {
    if k > 0 {
      FoldSound(scenario, k - 1);
      assert EventResolves(scenario.emails, scenario.events, k - 1);
      FoldStepSound(scenario, Fold(scenario, k - 1), scenario.events[k - 1], CreatedBefore(scenario.events, k - 1));
    }
  }

  lemma FoldNext(scenario: Scenario, k: nat)
    requires k < |scenario.events| && WellFormed(scenario.emails, scenario.events)
    ensures EventResolves(scenario.emails, scenario.events, k)
    ensures Applicable(Fold(scenario, k), scenario.events[k])
    ensures Fold(scenario, k + 1) == FoldStep(scenario, Fold(scenario, k), scenario.events[k])
  {
    FoldSound(scenario, k);
    assert EventResolves(scenario.emails, scenario.events, k);
    ResolvableApplies(scenario, Fold(scenario, k), scenario.events[k], CreatedBefore(scenario.events, k));
  }

  /** `b` is in `a`'s depends_on exactly when `a` is in `b`'s blocks, after every event. */
  lemma FoldEdgesSymmetric(scenario: Scenario, k: nat, a: string, b: string)
    requires k <= |scenario.events| && WellFormed(scenario.emails, scenario.events)
    requires a in Fold(scenario, k).bugs && b in Fold(scenario, k).bugs
    ensures b in Fold(scenario, k).bugs[a].dependsOn <==> a in Fold(scenario, k).bugs[b].blocks
  {
    FoldSound(scenario, k);
  }

  // ----- Applying an idempotent event twice is applying it once -----

  /** Whether `x` is in `a`'s depends_on once both declared edge sets are applied to `bug`. The
      blocks declaration comes last, so it decides the self-edge. */
  ghost predicate DependsAfter(bugs: map<string, ExpectedBug>, bug: string, dependsOn: Option<seq<string>>,
                               blocks: Option<seq<string>>, a: string, x: string)
    requires a in bugs
  {
    if blocks.Some? && x == bug then a in blocks.value
    else if dependsOn.Some? && a == bug then x in dependsOn.value
    else x in bugs[a].dependsOn
  }

  ghost predicate BlocksAfter(bugs: map<string, ExpectedBug>, bug: string, dependsOn: Option<seq<string>>,
                              blocks: Option<seq<string>>, a: string, x: string)
    requires a in bugs
  {
    if blocks.Some? && a == bug then x in blocks.value
    else if dependsOn.Some? && x == bug then a in dependsOn.value
    else x in bugs[a].blocks
  }

  ghost predicate LinkedAs(bugs: map<string, ExpectedBug>, bug: string, dependsOn: Option<seq<string>>,
                           blocks: Option<seq<string>>, linked: map<string, ExpectedBug>)
  {
    && linked.Keys == bugs.Keys
    && (forall a, x | a in bugs :: x in linked[a].dependsOn <==> DependsAfter(bugs, bug, dependsOn, blocks, a, x))
    && (forall a, x | a in bugs :: x in linked[a].blocks <==> BlocksAfter(bugs, bug, dependsOn, blocks, a, x))
  }

  lemma LinkedTwice(bugs: map<string, ExpectedBug>, bug: string, dependsOn: Option<seq<string>>,
                    blocks: Option<seq<string>>, once: map<string, ExpectedBug>, twice: map<string, ExpectedBug>)
    requires LinkedAs(bugs, bug, dependsOn, blocks, once)
    requires LinkedAs(once, bug, dependsOn, blocks, twice)
    ensures forall a | a in bugs :: twice[a].dependsOn == once[a].dependsOn && twice[a].blocks == once[a].blocks
  {
    forall a | a in bugs
      ensures twice[a].dependsOn == once[a].dependsOn && twice[a].blocks == once[a].blocks
    {
      assert forall x :: x in twice[a].dependsOn <==> x in once[a].dependsOn;
      assert forall x :: x in twice[a].blocks <==> x in once[a].blocks;
    }
  }

  /** Both edge sets of every bug after `_link` has run for each declared side. */
  lemma LinksPointwise(bugs: map<string, ExpectedBug>, bug: string,
                       dependsOn: Option<seq<string>>, blocks: Option<seq<string>>)
    requires EdgesConsistent(bugs) && bug in bugs
    requires Elements(OptionalList(dependsOn)) <= bugs.Keys && Elements(OptionalList(blocks)) <= bugs.Keys
    ensures LinkedAs(bugs, bug, dependsOn, blocks, OptionalLinks(bugs, bug, dependsOn, blocks))
  {
    var first := if dependsOn.Some? then LinkDependsOn(bugs, bug, Elements(dependsOn.value)) else bugs;
    if dependsOn.Some? { LinkedDependsOn(bugs, bug, dependsOn.value); }
    if blocks.Some? {
      LinkedBlocks(first, bug, blocks.value);
      LinkedCompose(bugs, bug, dependsOn, blocks.value, first, LinkBlocks(first, bug, Elements(blocks.value)));
    }
  }

  lemma LinkedDependsOn(bugs: map<string, ExpectedBug>, bug: string, declared: seq<string>)
    requires EdgesConsistent(bugs) && bug in bugs && Elements(declared) <= bugs.Keys
    ensures LinkedAs(bugs, bug, Some(declared), None, LinkDependsOn(bugs, bug, Elements(declared)))
    ensures EdgesConsistent(LinkDependsOn(bugs, bug, Elements(declared)))
  {
    LinkDependsOnConsistent(bugs, bug, Elements(declared));
  }

  lemma LinkedBlocks(bugs: map<string, ExpectedBug>, bug: string, declared: seq<string>)
    requires EdgesConsistent(bugs) && bug in bugs && Elements(declared) <= bugs.Keys
    ensures LinkedAs(bugs, bug, None, Some(declared), LinkBlocks(bugs, bug, Elements(declared)))
  {
  }

  lemma LinkedCompose(bugs: map<string, ExpectedBug>, bug: string, dependsOn: Option<seq<string>>,
                      blocks: seq<string>, first: map<string, ExpectedBug>, second: map<string, ExpectedBug>)
    requires LinkedAs(bugs, bug, dependsOn, None, first)
    requires LinkedAs(first, bug, None, Some(blocks), second)
    ensures LinkedAs(bugs, bug, dependsOn, Some(blocks), second)
  {
    forall a, x | a in bugs
      ensures x in second[a].dependsOn <==> DependsAfter(bugs, bug, dependsOn, Some(blocks), a, x)
      ensures x in second[a].blocks <==> BlocksAfter(bugs, bug, dependsOn, Some(blocks), a, x)
    {
      assert x in first[a].dependsOn <==> DependsAfter(bugs, bug, dependsOn, None, a, x);
      assert x in first[a].blocks <==> BlocksAfter(bugs, bug, dependsOn, None, a, x);
    }
  }

  /** Declaring the same edge sets again changes nothing. */
  lemma LinksTwice(bugs: map<string, ExpectedBug>, bug: string,
                   dependsOn: Option<seq<string>>, blocks: Option<seq<string>>)
    requires EdgesConsistent(bugs) && bug in bugs
    requires Elements(OptionalList(dependsOn)) <= bugs.Keys && Elements(OptionalList(blocks)) <= bugs.Keys
    ensures var once := OptionalLinks(bugs, bug, dependsOn, blocks);
      OptionalLinks(once, bug, dependsOn, blocks) == once
  {
    var once := OptionalLinks(bugs, bug, dependsOn, blocks);
    OptionalLinksConsistent(bugs, bug, dependsOn, blocks);
    LinksPointwise(bugs, bug, dependsOn, blocks);
    var twice := OptionalLinks(once, bug, dependsOn, blocks);
    LinksPointwise(once, bug, dependsOn, blocks);
    LinkedTwice(bugs, bug, dependsOn, blocks, once, twice);
    OptionalLinksFrame(once, bug, dependsOn, blocks);
  }

  lemma {:induction false} ReplaceSame(items: seq<ExpectedAttachment>, current: ExpectedAttachment)
    ensures ReplaceFirst(items, current, current) == items
  {
    if items != [] && items[0] != current { ReplaceSame(items[1..], current); }
  }

  lemma UpdateTwice(scenario: Scenario, exp: Expectation, event: Event, created: set<Ref>)
    requires event.action.BugUpdate?
    requires Sound(exp, created) && Resolvable(scenario, event, created) && Applicable(exp, event)
    ensures FoldUpdate(scenario, exp, event).bugs.Keys == exp.bugs.Keys
    ensures FoldUpdate(scenario, FoldUpdate(scenario, exp, event), event) == FoldUpdate(scenario, exp, event)
  {
    var a := event.action;
    RefsAreKeys(exp, created, OptionalList(a.newDependsOn));
    RefsAreKeys(exp, created, OptionalList(a.newBlocks));
    var named := exp.bugs[a.bug := UpdatedNames(scenario, event, exp.bugs[a.bug])];
    EdgesFramed(exp.bugs, named);
    NamedTwice(scenario, event, exp.bugs[a.bug]);
    RelinkedTwice(scenario, event, named);
  }

  /** Linking leaves the names alone, so naming again before linking again changes nothing. */
  lemma RelinkedTwice(scenario: Scenario, event: Event, named: map<string, ExpectedBug>)
    requires event.action.BugUpdate? && Actors(event) <= scenario.emails.Keys
    requires EdgesConsistent(named) && event.action.bug in named
    requires Elements(OptionalList(event.action.newDependsOn)) <= named.Keys
    requires Elements(OptionalList(event.action.newBlocks)) <= named.Keys
    requires UpdatedNames(scenario, event, named[event.action.bug]) == named[event.action.bug]
    ensures var a := event.action;
      var once := OptionalLinks(named, a.bug, a.newDependsOn, a.newBlocks);
      && once.Keys == named.Keys
      && OptionalLinks(once[a.bug := UpdatedNames(scenario, event, once[a.bug])], a.bug, a.newDependsOn, a.newBlocks)
         == once
  {
    hide EdgesConsistent, OptionalLinks;
    var a := event.action;
    OptionalLinksFrame(named, a.bug, a.newDependsOn, a.newBlocks);
    LinksTwice(named, a.bug, a.newDependsOn, a.newBlocks);
    var once := OptionalLinks(named, a.bug, a.newDependsOn, a.newBlocks);
    NamesFramed(scenario, event, named[a.bug], once[a.bug]);
    assert once[a.bug := once[a.bug]] == once;
  }

  lemma NamesFramed(scenario: Scenario, event: Event, b: ExpectedBug, linked: ExpectedBug)
    requires event.action.BugUpdate? && Actors(event) <= scenario.emails.Keys
    requires UpdatedNames(scenario, event, b) == b
    requires linked == b.(dependsOn := linked.dependsOn, blocks := linked.blocks)
    ensures UpdatedNames(scenario, event, linked) == linked
  {
  }

  lemma NamedTwice(scenario: Scenario, event: Event, b: ExpectedBug)
    requires event.action.BugUpdate? && Actors(event) <= scenario.emails.Keys
    ensures UpdatedNames(scenario, event, UpdatedNames(scenario, event, b)) == UpdatedNames(scenario, event, b)
  {
    var once := UpdatedScalars(b.scalars, event.action.scalars);
    assert UpdatedScalars(once, event.action.scalars) == once;
  }

  lemma AttachmentUpdateTwice(exp: Expectation, event: Event)
    requires event.action.AttachmentUpdate? && AttachmentsConsistent(exp) && Applicable(exp, event)
    ensures Applicable(FoldAttachmentUpdate(exp, event), event)
    ensures FoldAttachmentUpdate(FoldAttachmentUpdate(exp, event), event) == FoldAttachmentUpdate(exp, event)
  {
    var x := event.action.attachment;
    AttachmentUpdatePointwise(exp, event);
    var once := FoldAttachmentUpdate(exp, event);
    var updated := once.attachments[x];
    assert UpdatedAttachment(event, updated) == updated;
    var home := once.bugs[updated.bug];
    ReplaceSame(home.attachments, updated);
    assert home.(attachments := home.attachments) == home;
    assert once.bugs[updated.bug := home] == once.bugs;
    assert once.attachments[x := updated] == once.attachments;
  }

  lemma FlaggedTwice(scenario: Scenario, event: Event, b: ExpectedBug)
    requires event.action.BugFlag? && Actors(event) <= scenario.emails.Keys
    ensures FlaggedBug(scenario, event, FlaggedBug(scenario, event, b)) == FlaggedBug(scenario, event, b)
  {
    var once := FlaggedBug(scenario, event, b);
    assert FlaggedBug(scenario, event, once).flags == once.flags;
  }

  /** Re-sending an idempotent event leaves the expectation where one delivery put it. */
  lemma FoldStepTwice(scenario: Scenario, exp: Expectation, event: Event, created: set<Ref>)
    requires Sound(exp, created) && Resolvable(scenario, event, created) && IsIdempotent(event)
    ensures Applicable(exp, event) && Applicable(FoldStep(scenario, exp, event), event)
    ensures FoldStep(scenario, FoldStep(scenario, exp, event), event) == FoldStep(scenario, exp, event)
  {
    ResolvableApplies(scenario, exp, event, created);
    match event.action
    case BugUpdate(_, _, _, _, _, _, _, _, _) => UpdateTwice(scenario, exp, event, created);
    case AttachmentUpdate(_, _, _) => AttachmentUpdateTwice(exp, event);
    case BugCustomFieldSet(bug, values) => CustomTwice(scenario, exp, event);
    case BugFlag(bug, _, _, _) => FlagTwice(scenario, exp, event);
  }

  lemma CustomTwice(scenario: Scenario, exp: Expectation, event: Event)
    requires event.action.BugCustomFieldSet? && Actors(event) <= scenario.emails.Keys && Applicable(exp, event)
    ensures FoldStep(scenario, FoldStep(scenario, exp, event), event) == FoldStep(scenario, exp, event)
  {
    var once := FoldStep(scenario, exp, event);
    var b := once.bugs[event.action.bug];
    assert b.custom + event.action.values == b.custom;
    assert once.bugs[event.action.bug := b] == once.bugs;
  }

  lemma FlagTwice(scenario: Scenario, exp: Expectation, event: Event)
    requires event.action.BugFlag? && Actors(event) <= scenario.emails.Keys && Applicable(exp, event)
    ensures FoldStep(scenario, FoldStep(scenario, exp, event), event) == FoldStep(scenario, exp, event)
  {
    var once := FoldStep(scenario, exp, event);
    FlaggedTwice(scenario, event, exp.bugs[event.action.bug]);
    assert once.bugs[event.action.bug := once.bugs[event.action.bug]] == once.bugs;
  }
}
