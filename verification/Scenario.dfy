/** Loaded scenarios: the ordered events, what each one names, and the loader's check that no
    event refers to something a later event creates. */
module Scenarios {
  import opened Prelude
  import opened Markers

  /** A reference to something an event creates. Resources and assets resolve by name alone. */
  datatype Ref = BugRef(name: string) | AttachmentRef(name: string)

  datatype CustomValue = One(value: string) | Many(members: set<string>)

  /** The eight event actions, with the declared values that replay sends and the fold keeps.
      An absent update field is `None`. */
  datatype Action =
    | BugCreate(bug: string, serverAlias: string, description: string, scalars: map<string, string>,
                cc: seq<string>, keywords: seq<string>, groups: seq<string>,
                dependsOn: seq<string>, blocks: seq<string>)
    | BugUpdate(bug: string, scalars: map<string, string>, unreadable: bool,
                newCc: Option<seq<string>>, newKeywords: Option<seq<string>>, newGroups: Option<seq<string>>,
                newDependsOn: Option<seq<string>>, newBlocks: Option<seq<string>>,
                duplicateOf: Option<string>)
    | BugComment(bug: string, body: string, isPrivate: bool)
    | BugAttach(attachment: string, bug: string, description: string, sha256: string,
                contentType: string, isPrivate: bool)
    | BugWorktime(bug: string, hours: string, comment: string)
    | BugCustomFieldSet(bug: string, values: map<string, CustomValue>)
    | BugFlag(bug: string, flagType: string, status: char, requestee: Option<string>)
    | AttachmentUpdate(attachment: string, obsolete: bool, newDescription: Option<string>)

  datatype Event = Event(name: string, actor: string, action: Action)

  /** `emails` maps each declared actor to its login; two actors may share one. */
  datatype Scenario = Scenario(name: string, digest: string, emails: map<string, string>, events: seq<Event>)

  function MarkerOf(scenario: Scenario, event: Event): string
  {
    Marker(scenario.name, event.name)
  }

  // ----- Recovery classes -----

  predicate IsCreate(event: Event) { event.action.BugCreate? }

  predicate IsAppend(event: Event)
  {
    event.action.BugComment? || event.action.BugAttach? || event.action.BugWorktime?
  }

  predicate IsIdempotent(event: Event) { !IsCreate(event) && !IsAppend(event) }

  // ----- References -----

  function OptionalList(list: Option<seq<string>>): seq<string>
  {
    if list.Some? then list.value else []
  }

  function BugRefs(names: seq<string>): set<Ref>
  {
    set n | n in names :: BugRef(n)
  }

  /** What the event creates: a bug, an attachment, or nothing. */
  function Creates(event: Event): set<Ref>
  {
    match event.action
    case BugCreate(bug, _, _, _, _, _, _, _, _) => {BugRef(bug)}
    case BugAttach(attachment, _, _, _, _, _) => {AttachmentRef(attachment)}
    case _ => {}
  }

  /** The created things the event needs an id for. */
  function Uses(event: Event): set<Ref>
  {
    match event.action
    case BugCreate(_, _, _, _, _, _, _, dependsOn, blocks) => BugRefs(dependsOn) + BugRefs(blocks)
    case BugUpdate(bug, _, _, _, _, _, dependsOn, blocks, duplicateOf) =>
      {BugRef(bug)} + BugRefs(OptionalList(dependsOn)) + BugRefs(OptionalList(blocks))
      + if duplicateOf.Some? then {BugRef(duplicateOf.value)} else {}
    case BugComment(bug, _, _) => {BugRef(bug)}
    case BugAttach(_, bug, _, _, _, _) => {BugRef(bug)}
    case BugWorktime(bug, _, _) => {BugRef(bug)}
    case BugCustomFieldSet(bug, _) => {BugRef(bug)}
    case BugFlag(bug, _, _, _) => {BugRef(bug)}
    case AttachmentUpdate(attachment, _, _) => {AttachmentRef(attachment)}
  }

  function Actors(event: Event): set<string>
  {
    {event.actor} +
    match event.action
    case BugCreate(_, _, _, _, cc, _, _, _, _) => Elements(cc)
    case BugUpdate(_, _, _, cc, _, _, _, _, _) => Elements(OptionalList(cc))
    case BugFlag(_, _, _, requestee) => if requestee.Some? then {requestee.value} else {}
    case _ => {}
  }

  /** Values the loader checks on the event alone. */
  predicate ShapeOk(event: Event)
  {
    && IsSlug(event.name)
    && match event.action
       case BugCreate(_, _, _, _, cc, keywords, groups, dependsOn, blocks) =>
         Distinct(cc) && Distinct(keywords) && Distinct(groups) && Distinct(dependsOn) && Distinct(blocks)
       case BugUpdate(_, _, _, cc, keywords, groups, dependsOn, blocks, _) =>
         && Distinct(OptionalList(cc)) && Distinct(OptionalList(keywords)) && Distinct(OptionalList(groups))
         && Distinct(OptionalList(dependsOn)) && Distinct(OptionalList(blocks))
       case BugAttach(_, _, _, sha256, _, _) => IsHex(sha256)
       case BugFlag(_, _, status, requestee) =>
         status in {'?', '+', '-', 'X'} && (requestee.Some? ==> status == '?')
       case _ => true
  }

  /** Everything created by the first `k` events. */
  function CreatedBefore(events: seq<Event>, k: nat): set<Ref>
    requires k <= |events|
  {
    if k == 0 then {} else CreatedBefore(events, k - 1) + Creates(events[k - 1])
  }

  /** Event `i` refers only to what came before it and creates only what is new. */
  predicate EventResolves(emails: map<string, string>, events: seq<Event>, i: nat)
    requires i < |events|
  {
    var available := CreatedBefore(events, i);
    && ShapeOk(events[i])
    && Actors(events[i]) <= emails.Keys
    && Uses(events[i]) <= available
    && Creates(events[i]) !! available
  }

  ghost predicate WellFormed(emails: map<string, string>, events: seq<Event>)
  {
    && (forall i, j :: 0 <= i < j < |events| ==> events[i].name != events[j].name)
    && (forall i | 0 <= i < |events| :: EventResolves(emails, events, i))
  }

  function NamesBefore(events: seq<Event>, k: nat): set<string>
    requires k <= |events|
  {
    set i | 0 <= i < k :: events[i].name
  }

  lemma NamesGrow(events: seq<Event>, k: nat)
    requires k < |events|
    ensures NamesBefore(events, k + 1) == NamesBefore(events, k) + {events[k].name}
  {
    assert events[k].name in NamesBefore(events, k + 1);
  }

  /** `_validate_events`: one pass that grows the available references and the names seen. */
  method ValidateEvents(emails: map<string, string>, events: seq<Event>) returns (accepted: bool)
    ensures accepted <==> WellFormed(emails, events)
  {
    hide ShapeOk, Creates, Uses, Actors;
    var available: set<Ref> := {};
    var names: set<string> := {};
    var i := 0;
    while i < |events|
      invariant 0 <= i <= |events|
      invariant available == CreatedBefore(events, i)
      invariant names == NamesBefore(events, i)
      invariant forall k, l :: 0 <= k < l < i ==> events[k].name != events[l].name
      invariant forall k | 0 <= k < i :: EventResolves(emails, events, k)
    {
      var event := events[i];
      if event.name in names {
        return false;
      }
      if !(Actors(event) <= emails.Keys) || !(Uses(event) <= available)
         || !(Creates(event) !! available) || !ShapeOk(event)
      {
        assert !EventResolves(emails, events, i);
        return false;
      }
      assert EventResolves(emails, events, i);
      NamesGrow(events, i);
      names := names + {event.name};
      available := available + Creates(event);
      i := i + 1;
    }
    return true;
  }

  // ----- What replay refuses to send -----

  const ATTACHMENT_SUMMARY_BYTE_LIMIT := 255

  function Utf8Length(s: string): nat
  {
    if s == "" then 0 else
      (if s[0] < '\U{80}' then 1 else if s[0] < '\U{800}' then 2 else if s[0] < '\U{10000}' then 3 else 4)
      + Utf8Length(s[1..])
  }

  /** `check_supported`, over the values this model carries. */
  predicate Supported(scenario: Scenario, event: Event)
  {
    match event.action
    case BugCreate(_, _, description, _, _, _, _, _, _) => Unmarked(description)
    case BugComment(_, body, _) => Unmarked(body)
    case BugWorktime(_, _, comment) => Unmarked(comment)
    case BugAttach(_, _, description, sha256, _, _) =>
      && Unmarked(description)
      && Utf8Length(RenderAttachmentSummary(description, MarkerOf(scenario, event), sha256))
         <= ATTACHMENT_SUMMARY_BYTE_LIMIT
    case AttachmentUpdate(_, _, description) =>
      description.Some? ==>
        && Unmarked(description.value)
        && Utf8Length(description.value) <= ATTACHMENT_SUMMARY_BYTE_LIMIT
    case BugUpdate(_, scalars, _, _, _, _, _, _, duplicateOf) =>
      duplicateOf.Some? ==> "status" !in scalars && "resolution" !in scalars
    case BugFlag(_, flagType, _, _) =>
      forall i | 0 <= i < |flagType| :: flagType[i] !in {'+', '-', '?', 'X'}
    case _ => true
  }

  predicate AllSupported(scenario: Scenario)
  {
    forall i | 0 <= i < |scenario.events| :: Supported(scenario, scenario.events[i])
  }

  /** The digest prefix that names a bug on the server does not collide within the scenario. */
  ghost predicate DistinctAliases(events: seq<Event>)
  {
    forall i, j :: 0 <= i < j < |events| && IsCreate(events[i]) && IsCreate(events[j])
      ==> events[i].action.serverAlias != events[j].action.serverAlias
  }

  /** A scenario the loader returns. */
  ghost predicate Loaded(scenario: Scenario)
  {
    IsSlug(scenario.name) && WellFormed(scenario.emails, scenario.events) && DistinctAliases(scenario.events)
  }

  /** One that replay agrees to run. */
  ghost predicate Replayable(scenario: Scenario)
  {
    Loaded(scenario) && AllSupported(scenario)
  }

  // ----- Consequences for later proofs -----

  lemma {:induction false} CreatedBeforeGrows(events: seq<Event>, i: nat, j: nat)
    requires i <= j <= |events|
    ensures CreatedBefore(events, i) <= CreatedBefore(events, j)
    decreases j
  {
    if i < j { CreatedBeforeGrows(events, i, j - 1); }
  }

  lemma {:induction false} CreatedByEarlier(events: seq<Event>, k: nat, ref: Ref) returns (i: nat)
    requires k <= |events| && ref in CreatedBefore(events, k)
    ensures i < k && ref in Creates(events[i])
  {
    if ref in Creates(events[k - 1]) { i := k - 1; } else { i := CreatedByEarlier(events, k - 1, ref); }
  }

  /** Two events never create the same thing. */
  lemma CreatorsDiffer(emails: map<string, string>, events: seq<Event>, i: nat, j: nat)
    requires WellFormed(emails, events) && i < j < |events|
    ensures Creates(events[i]) !! Creates(events[j])
  {
    assert EventResolves(emails, events, j);
    assert Creates(events[i]) <= CreatedBefore(events, i + 1);
    CreatedBeforeGrows(events, i + 1, j);
  }
}
