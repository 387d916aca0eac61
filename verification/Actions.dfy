/** The action handlers: what replay sends for an event, and how it later decides from the
    server alone whether the event took effect. */
module Actions {
  import opened Prelude
  import opened Markers
  import opened Scenarios
  import opened Fixtures
  import opened Records

  type IdTable = map<Ref, int>

  // ----- Identity: the id table of a run -----

  function Resolve(ids: IdTable, ref: Ref): Option<int>
  {
    if ref in ids then Some(ids[ref]) else None
  }

  function ResolveBugs(ids: IdTable, names: seq<string>): (r: Option<seq<int>>)
    ensures r.Some? <==> forall n | n in names :: BugRef(n) in ids
    ensures r.Some? ==> |r.value| == |names|
    ensures r.Some? ==> forall k | 0 <= k < |names| :: BugRef(names[k]) in ids && r.value[k] == ids[BugRef(names[k])]
  {
    if names == [] then Some([])
    else
      var rest := ResolveBugs(ids, names[1..]);
      if BugRef(names[0]) in ids && rest.Some? then Some([ids[BugRef(names[0])]] + rest.value) else None
  }

  function Emails(emails: map<string, string>, actors: seq<string>): (r: seq<string>)
    requires Elements(actors) <= emails.Keys
    ensures |r| == |actors| && forall k | 0 <= k < |actors| :: r[k] == emails[actors[k]]
  {
    seq(|actors|, k requires 0 <= k < |actors| => assert actors[k] in Elements(actors); emails[actors[k]])
  }

  // ----- Building the request -----

  /** `_delta`: a declared list against the list a fresh read returned. */
  function DeltaOf<T(==, !new)>(declared: seq<T>, observed: seq<T>): Delta<T>
  {
    Delta(Without(declared, observed), Without(observed, declared))
  }

  function OptionalDelta<T(==, !new)>(declared: Option<seq<T>>, observed: seq<T>): Delta<T>
  {
    if declared.Some? then DeltaOf(declared.value, observed) else NoDelta()
  }

  function OptionalBugs(ids: IdTable, names: Option<seq<string>>): Option<Option<seq<int>>>
  {
    if names.None? then Some(None)
    else var r := ResolveBugs(ids, names.value); if r.Some? then Some(r) else None
  }

  predicate Unresolved(ids: IdTable, name: Option<string>)
  {
    name.Some? && BugRef(name.value) !in ids
  }

  function OptionalBug(ids: IdTable, name: Option<string>): Option<int>
    requires !Unresolved(ids, name)
  {
    if name.Some? then Some(ids[BugRef(name.value)]) else None
  }

  function OptionalEmails(emails: map<string, string>, actors: Option<seq<string>>): Option<seq<string>>
    requires Elements(OptionalList(actors)) <= emails.Keys
  {
    if actors.Some? then Some(Emails(emails, actors.value)) else None
  }

  /** `build` of every handler. `None` is a `ReplayError`: an unresolved reference, or an update
      whose fresh read returned nothing. */
  function Build(scenario: Scenario, ids: IdTable, event: Event, fixture: Fixture): Option<Request>
    requires Actors(event) <= scenario.emails.Keys
  {
    match event.action
    case BugCreate(_, alias, description, scalars, cc, keywords, groups, dependsOn, blocks) =>
      var dep, blk := ResolveBugs(ids, dependsOn), ResolveBugs(ids, blocks);
      if dep.None? || blk.None? then None
      else Some(CreateBug(alias, description, scalars, Emails(scenario.emails, cc), keywords, groups,
                          dep.value, blk.value))
    case BugUpdate(bug, scalars, _, cc, keywords, groups, dependsOn, blocks, duplicateOf) =>
      var id := Resolve(ids, BugRef(bug));
      if id.None? || id.value !in fixture.bugs then None
      else
        var observed := fixture.bugs[id.value];
        var dep, blk := OptionalBugs(ids, dependsOn), OptionalBugs(ids, blocks);
        if dep.None? || blk.None? || Unresolved(ids, duplicateOf) then None
        else Some(UpdateBug(id.value, scalars,
                            OptionalDelta(OptionalEmails(scenario.emails, cc), observed.cc),
                            OptionalDelta(keywords, observed.keywords),
                            OptionalDelta(groups, observed.groups),
                            OptionalDelta(dep.value, observed.dependsOn),
                            OptionalDelta(blk.value, observed.blocks), OptionalBug(ids, duplicateOf)))
    case BugComment(bug, body, isPrivate) =>
      var id := Resolve(ids, BugRef(bug));
      if id.None? then None
      else Some(AddComment(id.value, RenderMarker(body, MarkerOf(scenario, event)), isPrivate))
    case BugAttach(_, bug, description, sha256, contentType, isPrivate) =>
      var id := Resolve(ids, BugRef(bug));
      if id.None? then None
      else Some(Upload(id.value,
                       RenderAttachmentSummary(description, MarkerOf(scenario, event), sha256),
                       contentType, isPrivate))
    case BugWorktime(bug, _, comment) =>
      var id := Resolve(ids, BugRef(bug));
      if id.None? then None
      else Some(AddComment(id.value, RenderMarker(comment, MarkerOf(scenario, event)), false))
    case BugCustomFieldSet(bug, values) =>
      var id := Resolve(ids, BugRef(bug));
      if id.None? then None else Some(SetCustomFields(id.value, values))
    case BugFlag(bug, flagType, status, requestee) =>
      var id := Resolve(ids, BugRef(bug));
      if id.None? then None
      else Some(SetFlag(id.value, flagType, status,
                        if requestee.Some? then Some(scenario.emails[requestee.value]) else None))
    case AttachmentUpdate(attachment, obsolete, description) =>
      var id := Resolve(ids, AttachmentRef(attachment));
      if id.None? then None else Some(UpdateAttachment(id.value, obsolete, description))
  }

  /** `resolved_ids`: the identities a usable reply to the committed request carries. */
  function ResolvedIds(event: Event, before: Fixture): IdTable
  {
    match event.action
    case BugCreate(bug, _, _, _, _, _, _, _, _) => map[BugRef(bug) := before.nextBug]
    case BugAttach(attachment, _, _, _, _, _) => map[AttachmentRef(attachment) := before.nextAttachment]
    case _ => map[]
  }

  // ----- Reconciliation -----

  datatype Verdict = Verdict(next: NextAction, ids: IdTable)

  /** What a read returned: the server's answer, exit status 2 (which reads as "absent"), or a
      payload of a shape the engine does not recognise. A read that raises is not a reply. */
  datatype Reply = Answer | ExitTwo | Unrecognised

  /** The positions in a thread whose text carries the token. */
  function MarkerHits(texts: seq<string>, token: string): (r: seq<nat>)
    ensures forall k :: k in r <==> 0 <= k < |texts| && Contains(texts[k], token)
  {
    if texts == [] then []
    else
      var rest := MarkerHits(texts[..|texts| - 1], token);
      if Contains(texts[|texts| - 1], token) then rest + [|texts| - 1] else rest
  }

  function CommentTexts(comments: seq<Comment>): (r: seq<string>)
    ensures |r| == |comments| && forall k | 0 <= k < |r| :: r[k] == comments[k].text
  {
    seq(|comments|, k requires 0 <= k < |comments| => comments[k].text)
  }

  /** The summaries `attachment list` returns for a bug. */
  function Summaries(fixture: Fixture, attachments: seq<int>): (r: seq<string>)
    ensures |r| == |attachments|
    ensures forall k | 0 <= k < |r| ::
      r[k] == if attachments[k] in fixture.attachments then fixture.attachments[attachments[k]].summary else ""
  {
    seq(|attachments|, k requires 0 <= k < |attachments| =>
      if attachments[k] in fixture.attachments then fixture.attachments[attachments[k]].summary else "")
  }

  /** `_append_result`: one marker advances, none retries, more than one stops. */
  function AppendResult(hits: seq<nat>, ids: IdTable): Verdict
  {
    if |hits| == 1 then Verdict(Advance, ids)
    else if hits == [] then Verdict(Retry, map[])
    else Verdict(Stop, map[])
  }

  function Confirmed(matches: bool): Verdict
  {
    Verdict(if matches then Advance else Retry, map[])
  }

  predicate SameMembers<T(==)>(declared: seq<T>, observed: seq<T>)
  {
    Elements(declared) == Elements(observed)
  }

  predicate OptionalMatches<T(==)>(declared: Option<seq<T>>, observed: seq<T>)
  {
    declared.Some? ==> SameMembers(declared.value, observed)
  }

  predicate ScalarsMatch<T(==)>(declared: map<string, T>, observed: map<string, T>)
  {
    forall k | k in declared :: k in observed && observed[k] == declared[k]
  }

  /** `reconcile` of `bug.flag`: a declared requestee must match, an undeclared one may be anything. */
  predicate FlagMatches(flags: map<string, Flag>, flagType: string, status: char, requestee: Option<string>)
  {
    if status == 'X' then flagType !in flags
    else
      && flagType in flags && flags[flagType].status == status
      && (requestee.None? || flags[flagType].requestee == requestee)
  }

  predicate UpdateMatches(scenario: Scenario, ids: IdTable, event: Event, bug: Bug)
    requires event.action.BugUpdate? && Actors(event) <= scenario.emails.Keys
  {
    var a := event.action;
    var dep, blk := OptionalBugs(ids, a.newDependsOn), OptionalBugs(ids, a.newBlocks);
    && ScalarsMatch(a.scalars, bug.scalars)
    && OptionalMatches(OptionalEmails(scenario.emails, a.newCc), bug.cc)
    && OptionalMatches(a.newKeywords, bug.keywords)
    && OptionalMatches(a.newGroups, bug.groups)
    && dep.Some? && OptionalMatches(dep.value, bug.dependsOn)
    && blk.Some? && OptionalMatches(blk.value, bug.blocks)
    && !Unresolved(ids, a.duplicateOf) && (a.duplicateOf.Some? ==> bug.dupeOf == OptionalBug(ids, a.duplicateOf))
  }

  /** `reconcile` of every handler. `None` is a `ReplayError` from an unresolved reference. */
  function Reconcile(scenario: Scenario, ids: IdTable, event: Event, fixture: Fixture, reply: Reply)
    : Option<Verdict>
    requires Actors(event) <= scenario.emails.Keys
  {
    match event.action
    case BugCreate(bug, alias, _, _, _, _, _, _, _) =>
      Some(match reply
           case ExitTwo => Verdict(Retry, map[])
           case Unrecognised => Verdict(Stop, map[])
           case Answer =>
             if alias in fixture.aliases then Verdict(Advance, map[BugRef(bug) := fixture.aliases[alias]])
             else Verdict(Retry, map[]))
    case AttachmentUpdate(attachment, obsolete, description) =>
      var id := Resolve(ids, AttachmentRef(attachment));
      if id.None? then None
      else Some(Confirmed(reply == Answer && id.value in fixture.attachments &&
        var a := fixture.attachments[id.value];
        a.isObsolete == obsolete && (description.Some? ==> a.summary == description.value)))
    case BugComment(bug, _, _) =>
      var id := Resolve(ids, BugRef(bug));
      if id.None? then None else Some(ReconcileComment(scenario, event, fixture, id.value, reply))
    case BugWorktime(bug, _, _) =>
      var id := Resolve(ids, BugRef(bug));
      if id.None? then None else Some(ReconcileComment(scenario, event, fixture, id.value, reply))
    case BugAttach(attachment, bug, _, _, _, _) =>
      var id := Resolve(ids, BugRef(bug));
      if id.None? then None else Some(ReconcileUpload(scenario, event, fixture, id.value, reply))
    case BugUpdate(bug, _, unreadable, _, _, _, _, _, _) =>
      var id := Resolve(ids, BugRef(bug));
      if id.None? then None
      else Some(Confirmed(reply == Answer && id.value in fixture.bugs && !unreadable
                          && UpdateMatches(scenario, ids, event, fixture.bugs[id.value])))
    case BugCustomFieldSet(bug, values) =>
      var id := Resolve(ids, BugRef(bug));
      if id.None? then None
      else Some(Confirmed(reply == Answer && id.value in fixture.bugs
                          && ScalarsMatch(values, fixture.bugs[id.value].custom)))
    case BugFlag(bug, flagType, status, requestee) =>
      var id := Resolve(ids, BugRef(bug));
      if id.None? then None
      else Some(Confirmed(reply == Answer && id.value in fixture.bugs
                          && FlagMatches(fixture.bugs[id.value].flags, flagType, status,
                               if requestee.Some? then Some(scenario.emails[requestee.value]) else None)))
  }

  function ReconcileComment(scenario: Scenario, event: Event, fixture: Fixture, bug: int, reply: Reply): Verdict
  {
    if reply != Answer || bug !in fixture.bugs then Verdict(Stop, map[])
    else AppendResult(MarkerHits(CommentTexts(fixture.bugs[bug].comments), Token(MarkerOf(scenario, event))), map[])
  }

  function ReconcileUpload(scenario: Scenario, event: Event, fixture: Fixture, bug: int, reply: Reply): Verdict
    requires event.action.BugAttach?
  {
    if reply != Answer || bug !in fixture.bugs then Verdict(Stop, map[])
    else
      var listed := fixture.bugs[bug].attachments;
      var hits := MarkerHits(Summaries(fixture, listed), Token(MarkerOf(scenario, event)));
      if |hits| == 1 then
        assert hits[0] in hits;
        AppendResult(hits, map[AttachmentRef(event.action.attachment) := listed[hits[0]]])
      else AppendResult(hits, map[])
  }
}
