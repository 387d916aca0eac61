/** Delta replay refines the fold: the server state that replay's add/remove requests produce
    and the state folded from declared values alone describe the same scenario. */
module Simulation {
  import opened Prelude
  import opened Markers
  import opened Scenarios
  import opened Fixtures
  import opened Actions
  import opened Expected

  /** How far the server may fall short of the fold, and how far it must: logins missing from a bug's
      CC, bugs whose self-edge stands the other way, and attachments whose marked summary a later
      description has replaced. Everything else agrees outright. */
  datatype Gaps = Gaps(mayMiss: set<(string, string)>, mustMiss: set<(string, string)>,
                       maySlip: set<string>, mustSlip: set<string>, renamed: set<string>)

  const NoGaps := Gaps({}, {}, {}, {}, {})

  function OtherBugs(pairs: set<(string, string)>, bug: string): (r: set<(string, string)>)
    ensures forall p :: p in r <==> p in pairs && p.0 != bug
  {
    set p | p in pairs && p.0 != bug
  }

  /** Nothing is said about this bug. */
  function Forgotten(gaps: Gaps, bug: string): Gaps
  {
    gaps.(mayMiss := OtherBugs(gaps.mayMiss, bug), mustMiss := OtherBugs(gaps.mustMiss, bug),
          maySlip := gaps.maySlip - {bug}, mustSlip := gaps.mustSlip - {bug})
  }

  /** Whether the bug's self-edge can stand as the fold has it (`slip` false) or the other way. */
  predicate CanSlip(gaps: Gaps, bug: string, slip: bool)
  {
    if slip then bug in gaps.maySlip else bug !in gaps.mustSlip
  }

  /** The server's self-edge after both deltas of one update, which are computed from one read: the
      `blocks` delta is silent where its declaration already matches that read. */
  function ServedSelf(current: bool, bug: string, dependsOn: Option<seq<string>>, blocks: Option<seq<string>>): bool
  {
    if blocks.Some? && (bug in blocks.value) != current then bug in blocks.value
    else if dependsOn.Some? then bug in dependsOn.value
    else current
  }

  /** The fold's: the `blocks` declaration comes last. */
  function FoldedSelf(current: bool, bug: string, dependsOn: Option<seq<string>>, blocks: Option<seq<string>>): bool
  {
    if blocks.Some? then bug in blocks.value else if dependsOn.Some? then bug in dependsOn.value else current
  }

  /** Whether an update leaves the self-edge slipped, from whether it was before. */
  predicate SlipAfter(slip: bool, folded: bool, bug: string, dependsOn: Option<seq<string>>,
                      blocks: Option<seq<string>>)
  {
    ServedSelf(folded != slip, bug, dependsOn, blocks) != FoldedSelf(folded, bug, dependsOn, blocks)
  }

  predicate SlipsTo(gaps: Gaps, folded: bool, bug: string, dependsOn: Option<seq<string>>, blocks: Option<seq<string>>,
                    slip: bool)
  {
    || (CanSlip(gaps, bug, false) && SlipAfter(false, folded, bug, dependsOn, blocks) == slip)
    || (CanSlip(gaps, bug, true) && SlipAfter(true, folded, bug, dependsOn, blocks) == slip)
  }

  function Relinked(gaps: Gaps, folded: bool, bug: string, dependsOn: Option<seq<string>>,
                    blocks: Option<seq<string>>): Gaps
  {
    gaps.(maySlip := if SlipsTo(gaps, folded, bug, dependsOn, blocks, true) then gaps.maySlip + {bug}
                     else gaps.maySlip - {bug},
          mustSlip := if SlipsTo(gaps, folded, bug, dependsOn, blocks, false) then gaps.mustSlip - {bug}
                      else gaps.mustSlip + {bug})
  }

  function Redescribed(gaps: Gaps, event: Event): Gaps
    requires event.action.AttachmentUpdate?
  {
    if event.action.newDescription.Some? then gaps.(renamed := gaps.renamed + {event.action.attachment}) else gaps
  }

  function Readdressed(gaps: Gaps, event: Event): Gaps
    requires event.action.BugUpdate?
  {
    if event.action.newCc.None? then gaps
    else gaps.(mayMiss := OtherBugs(gaps.mayMiss, event.action.bug),
               mustMiss := OtherBugs(gaps.mustMiss, event.action.bug))
  }

  /** A committed flag puts its requestee on CC. */
  function Flagged(gaps: Gaps, scenario: Scenario, event: Event): Gaps
    requires event.action.BugFlag? && Actors(event) <= scenario.emails.Keys
  {
    var login := RequesteeEmail(scenario, event);
    if login.None? || event.action.status == 'X' then gaps
    else gaps.(mayMiss := gaps.mayMiss - {(event.action.bug, login.value)},
               mustMiss := gaps.mustMiss - {(event.action.bug, login.value)})
  }

  function RequesteeEmail(scenario: Scenario, event: Event): Option<string>
    requires event.action.BugFlag? && Actors(event) <= scenario.emails.Keys
  {
    if event.action.requestee.Some? then Some(scenario.emails[event.action.requestee.value]) else None
  }

  /** The gaps once the event's request has been committed, from those before it. */
  function After(gaps: Gaps, scenario: Scenario, exp: Expectation, event: Event): Gaps
    requires Actors(event) <= scenario.emails.Keys && Applicable(exp, event)
  {
    match event.action
    case BugCreate(bug, _, _, _, _, _, _, _, _) => Forgotten(gaps, bug)
    case BugUpdate(bug, _, _, _, _, _, dependsOn, blocks, _) =>
      Relinked(Readdressed(gaps, event), bug in exp.bugs[bug].dependsOn, bug, dependsOn, blocks)
    case BugFlag(_, _, _, _) => Flagged(gaps, scenario, event)
    case AttachmentUpdate(_, _, _) => Redescribed(gaps, event)
    case _ => gaps
  }

  // ----- The relation -----

  /** Two different bugs, or two different attachments, have different ids. */
  ghost predicate Apart(ids: IdTable, r: Ref, q: Ref)
    requires r in ids && q in ids
  {
    r != q && (r.BugRef? <==> q.BugRef?) ==> ids[r] != ids[q]
  }

  ghost predicate OneToOne(ids: IdTable)
  {
    forall r, q {:trigger Apart(ids, r, q)} | r in ids && q in ids :: Apart(ids, r, q)
  }

  lemma OneToOneExtended(ids: IdTable, ref: Ref, id: int)
    requires OneToOne(ids) && ref !in ids
    requires forall r | r in ids && (r.BugRef? <==> ref.BugRef?) :: ids[r] != id
    ensures OneToOne(ids[ref := id])
  {
    var more := ids[ref := id];
    forall r, q {:trigger Apart(more, r, q)} | r in more && q in more
      ensures Apart(more, r, q)
    {
      if r in ids && q in ids { assert Apart(ids, r, q); }
    }
  }

  /** The id table names these bugs and no others, and the server holds them. */
  ghost predicate BugsLocated(ids: IdTable, names: set<string>, served: set<int>)
  {
    && (forall a :: a in names <==> BugRef(a) in ids)
    && (forall a | a in names :: ids[BugRef(a)] in served)
  }

  ghost predicate NamesBug(ids: IdTable, names: set<string>, k: int)
  {
    exists a :: a in names && BugRef(a) in ids && ids[BugRef(a)] == k
  }

  ghost predicate AttachmentsLocated(ids: IdTable, names: set<string>, served: set<int>)
  {
    && (forall x :: x in names <==> AttachmentRef(x) in ids)
    && (forall x | x in names :: ids[AttachmentRef(x)] in served)
  }

  ghost predicate Located(ids: IdTable, exp: Expectation, fixture: Fixture)
  {
    && OneToOne(ids)
    && BugsLocated(ids, exp.bugs.Keys, fixture.bugs.Keys)
    && AttachmentsLocated(ids, exp.attachments.Keys, fixture.attachments.Keys)
    && (forall k | k in fixture.bugs :: 0 < k < fixture.nextBug)
    && (forall k | k in fixture.attachments :: 0 < k < fixture.nextAttachment)
    && fixture.nextBug > 0 && fixture.nextAttachment > 0
  }

  /** The text is some unmarked body rendered with this marker. */
  ghost predicate CarriesMarker(text: string, marker: string)
  {
    var length := |text| - |marker| - 4;
    0 <= length && Unmarked(text[..length]) && text == RenderMarker(text[..length], marker)
  }

  /** A server comment is the expected one: same author and visibility, and either the create
      description itself or text rendered with the expected marker. */
  ghost predicate CommentAgrees(scenario: Scenario, expected: ExpectedComment, comment: Comment)
  {
    && expected.author in scenario.emails && comment.author == scenario.emails[expected.author]
    && comment.isPrivate == expected.isPrivate
    && if expected.marker.None? then expected.text == Some(comment.text) && Unmarked(comment.text)
       else CarriesMarker(comment.text, expected.marker.value)
  }

  ghost predicate ThreadAgrees(scenario: Scenario, expected: seq<ExpectedComment>, comments: seq<Comment>)
  {
    && |expected| == |comments|
    && forall k | 0 <= k < |comments| :: CommentAgrees(scenario, expected[k], comments[k])
  }

  ghost predicate ListAgrees(ids: IdTable, expected: seq<ExpectedAttachment>, listed: seq<int>)
  {
    && |expected| == |listed|
    && forall k | 0 <= k < |listed| ::
         AttachmentRef(expected[k].alias) in ids && ids[AttachmentRef(expected[k].alias)] == listed[k]
  }

  /** The server's CC is the expected one but for the gaps. */
  ghost predicate CcAgrees(gaps: Gaps, name: string, expected: set<string>, cc: seq<string>)
  {
    && (forall login | login in cc :: login in expected && (name, login) !in gaps.mustMiss)
    && (forall login | login in expected && login !in cc :: (name, login) in gaps.mayMiss)
  }

  /** The scalars the fold makes a claim about. */
  function Asserted(expected: ExpectedBug): (r: map<string, string>)
    ensures forall k :: k in r <==> k in expected.scalars && k !in expected.unasserted
    ensures forall k | k in r :: r[k] == expected.scalars[k]
  {
    expected.scalars - expected.unasserted
  }

  ghost predicate DuplicateAgrees(ids: IdTable, expected: Option<string>, served: Option<int>)
  {
    if expected.None? then served.None?
    else BugRef(expected.value) in ids && served == Some(ids[BugRef(expected.value)])
  }

  /** Everything about one bug but its edges. A scalar the fold makes no claim about may be anything. */
  ghost predicate BugAgrees(gaps: Gaps, scenario: Scenario, ids: IdTable, name: string, expected: ExpectedBug, bug: Bug)
  {
    && ScalarsMatch(Asserted(expected), bug.scalars) && bug.custom == expected.custom
    && DuplicateAgrees(ids, expected.duplicateOf, bug.dupeOf)
    && Elements(bug.keywords) == expected.keywords && Elements(bug.groups) == expected.groups
    && CcAgrees(gaps, name, expected.cc, bug.cc)
    && ThreadAgrees(scenario, expected.comments, bug.comments)
    && ListAgrees(ids, expected.attachments, bug.attachments)
  }

  /** The summary is the expected one until some `attachment.update` puts a bare description in
      its place. */
  ghost predicate SummaryAgrees(renamed: bool, expected: ExpectedAttachment, summary: string)
  {
    if renamed then Unmarked(summary) else summary == expected.summary
  }

  ghost predicate AttachmentAgrees(gaps: Gaps, scenario: Scenario, ids: IdTable, expected: ExpectedAttachment,
                                   a: Attachment)
  {
    && BugRef(expected.bug) in ids && a.bug == ids[BugRef(expected.bug)]
    && expected.author in scenario.emails && a.author == scenario.emails[expected.author]
    && a.contentType == expected.contentType && a.isPrivate == expected.isPrivate
    && a.isObsolete == expected.obsolete
    && SummaryAgrees(expected.alias in gaps.renamed, expected, a.summary)
  }

  /** Both edge lists between every two different bugs, and no edge to any other bug. */
  ghost predicate EdgesAgree(ids: IdTable, expected: map<string, ExpectedBug>, bugs: map<int, Bug>)
  {
    EdgesClosed(bugs) && EdgesNamed(ids, expected.Keys, bugs)
    && forall a, c | a in expected && c in expected && a != c :: PairAgrees(ids, expected, bugs, a, c)
  }

  /** A bug's own self-edge: in both of its lists or in neither, and as the fold has it but for the
      gaps. */
  ghost predicate SelfAgrees(gaps: Gaps, ids: IdTable, expected: map<string, ExpectedBug>, bugs: map<int, Bug>,
                             a: string)
    requires a in expected
  {
    && BugRef(a) in ids && ids[BugRef(a)] in bugs
    && var k := ids[BugRef(a)];
       && (k in bugs[k].dependsOn <==> k in bugs[k].blocks)
       && CanSlip(gaps, a, (k in bugs[k].dependsOn) != (a in expected[a].dependsOn))
  }

  ghost predicate SelvesAgree(gaps: Gaps, ids: IdTable, expected: map<string, ExpectedBug>, bugs: map<int, Bug>)
  {
    forall a | a in expected :: SelfAgrees(gaps, ids, expected, bugs, a)
  }

  /** The edges of the named bugs end in named bugs. */
  ghost predicate EdgesNamed(ids: IdTable, names: set<string>, bugs: map<int, Bug>)
  {
    forall a | a in names :: EndsNamed(ids, names, bugs, a)
  }

  ghost predicate EndsNamed(ids: IdTable, names: set<string>, bugs: map<int, Bug>, a: string)
  {
    && BugRef(a) in ids && ids[BugRef(a)] in bugs
    && (forall y | y in bugs[ids[BugRef(a)]].dependsOn :: NamesBug(ids, names, y))
    && (forall y | y in bugs[ids[BugRef(a)]].blocks :: NamesBug(ids, names, y))
  }

  ghost predicate EdgesClosed(bugs: map<int, Bug>)
  {
    && (forall k, y | k in bugs && y in bugs[k].dependsOn :: y in bugs)
    && (forall k, y | k in bugs && y in bugs[k].blocks :: y in bugs)
  }

  ghost predicate PairAgrees(ids: IdTable, expected: map<string, ExpectedBug>, bugs: map<int, Bug>,
                             a: string, c: string)
  {
    && a in expected && c in expected
    && BugRef(a) in ids && BugRef(c) in ids && ids[BugRef(a)] in bugs
    && (c in expected[a].dependsOn <==> ids[BugRef(c)] in bugs[ids[BugRef(a)]].dependsOn)
    && (c in expected[a].blocks <==> ids[BugRef(c)] in bugs[ids[BugRef(a)]].blocks)
  }

  ghost predicate BugsAgree(gaps: Gaps, scenario: Scenario, ids: IdTable,
                            expected: map<string, ExpectedBug>, bugs: map<int, Bug>)
  {
    forall a | a in expected ::
      BugRef(a) in ids && ids[BugRef(a)] in bugs && BugAgrees(gaps, scenario, ids, a, expected[a], bugs[ids[BugRef(a)]])
  }

  ghost predicate AttachmentsAgree(gaps: Gaps, scenario: Scenario, ids: IdTable,
                                   expected: map<string, ExpectedAttachment>, attachments: map<int, Attachment>)
  {
    forall x | x in expected ::
      AttachmentRef(x) in ids && ids[AttachmentRef(x)] in attachments
      && AttachmentAgrees(gaps, scenario, ids, expected[x], attachments[ids[AttachmentRef(x)]])
  }

  /** The server holds what the expectation says, under the names in the id table. */
  ghost predicate Agrees(gaps: Gaps, scenario: Scenario, ids: IdTable, exp: Expectation, fixture: Fixture)
  {
    && Located(ids, exp, fixture)
    && BugsAgree(gaps, scenario, ids, exp.bugs, fixture.bugs)
    && AttachmentsAgree(gaps, scenario, ids, exp.attachments, fixture.attachments)
    && EdgesAgree(ids, exp.bugs, fixture.bugs) && SelvesAgree(gaps, ids, exp.bugs, fixture.bugs)
    && gaps.renamed <= exp.attachments.Keys
  }

  lemma AgreeingBug(gaps: Gaps, scenario: Scenario, ids: IdTable, exp: Expectation, fixture: Fixture, name: string)
    requires Agrees(gaps, scenario, ids, exp, fixture) && name in exp.bugs
    ensures BugRef(name) in ids && ids[BugRef(name)] in fixture.bugs
    ensures BugAgrees(gaps, scenario, ids, name, exp.bugs[name], fixture.bugs[ids[BugRef(name)]])
  {
  }

  /** The second allows whatever the first does. */
  predicate Wider(gaps: Gaps, wider: Gaps)
  {
    && gaps.mayMiss <= wider.mayMiss && wider.mustMiss <= gaps.mustMiss
    && gaps.maySlip <= wider.maySlip && wider.mustSlip <= gaps.mustSlip
    && gaps.renamed == wider.renamed
  }

  lemma AgreesWider(gaps: Gaps, wider: Gaps, scenario: Scenario, ids: IdTable, exp: Expectation, fixture: Fixture)
    requires Agrees(gaps, scenario, ids, exp, fixture) && Wider(gaps, wider)
    ensures Agrees(wider, scenario, ids, exp, fixture)
  {
    hide OneToOne, BugsLocated, AttachmentsLocated, EdgesAgree;
    forall a | a in exp.bugs
      ensures BugAgrees(wider, scenario, ids, a, exp.bugs[a], fixture.bugs[ids[BugRef(a)]])
      ensures SelfAgrees(wider, ids, exp.bugs, fixture.bugs, a)
    {
      assert SelfAgrees(gaps, ids, exp.bugs, fixture.bugs, a);
    }
  }

  // ----- Deltas -----

  /** A delta that turns any list with these members into the declared list. */
  lemma DeltaReaches<T(!new)>(declared: seq<T>, observed: seq<T>)
    ensures Elements(ApplyDelta(observed, DeltaOf(declared, observed))) == Elements(declared)
  {
  }

  lemma OptionalDeltaReaches<T(!new)>(declared: Option<seq<T>>, observed: seq<T>)
    ensures Elements(ApplyDelta(observed, OptionalDelta(declared, observed)))
         == if declared.Some? then Elements(declared.value) else Elements(observed)
  {
  }

  // ----- Edges: the server's edits against `_link` -----

  /** The delta adds the edge if it is declared and missing, removes it if it is current and not
      declared, and never contradicts the declaration. */
  ghost predicate ServesOne(id: int, isCurrent: bool, isDeclared: bool, delta: Delta<int>)
  {
    && (id in delta.add ==> isDeclared)
    && (id in delta.remove ==> !isDeclared)
    && (isDeclared && !isCurrent ==> id in delta.add)
    && (isCurrent && !isDeclared ==> id in delta.remove)
  }

  /** So for every bug but the edited one itself. */
  ghost predicate Serves(ids: IdTable, names: set<string>, served: set<int>, bug: string,
                         current: set<string>, declared: set<string>, delta: Delta<int>)
  {
    && (forall c | c in names && c != bug ::
          BugRef(c) in ids && ServesOne(ids[BugRef(c)], c in current, c in declared, delta))
    && (forall y | y in delta.add :: y in served && NamesBug(ids, names, y))
  }

  /** One pair of bugs across one edit: either may be the edited bug. */
  lemma DependsOnPoint(ids: IdTable, expected: map<string, ExpectedBug>, bugs: map<int, Bug>,
                       bug: string, declared: set<string>, delta: Delta<int>, a: string, c: string)
    requires a in expected && c in expected && bug in expected
    requires BugRef(a) in ids && BugRef(c) in ids && BugRef(bug) in ids
    requires ids[BugRef(a)] in bugs && ids[BugRef(c)] in bugs && ids[BugRef(bug)] in bugs
    requires ids[BugRef(a)] == ids[BugRef(bug)] ==> a == bug
    requires ids[BugRef(c)] == ids[BugRef(bug)] ==> c == bug
    requires PairAgrees(ids, expected, bugs, a, c)
    requires a in expected[bug].dependsOn <==> bug in expected[a].blocks
    requires a != c
    requires a != bug ==> ServesOne(ids[BugRef(a)], a in expected[bug].dependsOn, a in declared, delta)
    requires c != bug ==> ServesOne(ids[BugRef(c)], c in expected[bug].dependsOn, c in declared, delta)
    ensures PairAgrees(ids, LinkDependsOn(expected, bug, declared), EditDependsOn(bugs, ids[BugRef(bug)], delta), a, c)
  {
  }

  lemma BlocksPoint(ids: IdTable, expected: map<string, ExpectedBug>, bugs: map<int, Bug>,
                    bug: string, declared: set<string>, delta: Delta<int>, a: string, c: string)
    requires a in expected && c in expected && bug in expected
    requires BugRef(a) in ids && BugRef(c) in ids && BugRef(bug) in ids
    requires ids[BugRef(a)] in bugs && ids[BugRef(c)] in bugs && ids[BugRef(bug)] in bugs
    requires ids[BugRef(a)] == ids[BugRef(bug)] ==> a == bug
    requires ids[BugRef(c)] == ids[BugRef(bug)] ==> c == bug
    requires PairAgrees(ids, expected, bugs, a, c)
    requires a in expected[bug].blocks <==> bug in expected[a].dependsOn
    requires a != c
    requires a != bug ==> ServesOne(ids[BugRef(a)], a in expected[bug].blocks, a in declared, delta)
    requires c != bug ==> ServesOne(ids[BugRef(c)], c in expected[bug].blocks, c in declared, delta)
    ensures PairAgrees(ids, LinkBlocks(expected, bug, declared), EditBlocks(bugs, ids[BugRef(bug)], delta), a, c)
  {
  }

  lemma EditDependsOnClosed(bugs: map<int, Bug>, bug: int, delta: Delta<int>)
    requires EdgesClosed(bugs) && bug in bugs && forall y | y in delta.add :: y in bugs
    ensures EdgesClosed(EditDependsOn(bugs, bug, delta))
  {
  }

  /** An edit whose additions are named leaves the named bugs' edges among them. */
  lemma EditDependsOnNamed(ids: IdTable, names: set<string>, bugs: map<int, Bug>, bug: string, delta: Delta<int>)
    requires EdgesNamed(ids, names, bugs) && bug in names && BugRef(bug) in ids
    requires forall y | y in delta.add :: NamesBug(ids, names, y)
    ensures EdgesNamed(ids, names, EditDependsOn(bugs, ids[BugRef(bug)], delta))
  {
    var edited := EditDependsOn(bugs, ids[BugRef(bug)], delta);
    assert NamesBug(ids, names, ids[BugRef(bug)]);
    forall a | a in names ensures EndsNamed(ids, names, edited, a) {
      assert EndsNamed(ids, names, bugs, a);
    }
  }

  lemma EditBlocksNamed(ids: IdTable, names: set<string>, bugs: map<int, Bug>, bug: string, delta: Delta<int>)
    requires EdgesNamed(ids, names, bugs) && bug in names && BugRef(bug) in ids
    requires forall y | y in delta.add :: NamesBug(ids, names, y)
    ensures EdgesNamed(ids, names, EditBlocks(bugs, ids[BugRef(bug)], delta))
  {
    var edited := EditBlocks(bugs, ids[BugRef(bug)], delta);
    assert NamesBug(ids, names, ids[BugRef(bug)]);
    forall a | a in names ensures EndsNamed(ids, names, edited, a) {
      assert EndsNamed(ids, names, bugs, a);
    }
  }

  lemma EditDependsOnAgrees(ids: IdTable, expected: map<string, ExpectedBug>, bugs: map<int, Bug>,
                            bug: string, declared: set<string>, delta: Delta<int>)
    requires OneToOne(ids) && BugsLocated(ids, expected.Keys, bugs.Keys)
    requires EdgesConsistent(expected) && bug in expected
    requires EdgesAgree(ids, expected, bugs)
    requires Serves(ids, expected.Keys, bugs.Keys, bug, expected[bug].dependsOn, declared, delta)
    ensures EdgesAgree(ids, LinkDependsOn(expected, bug, declared), EditDependsOn(bugs, ids[BugRef(bug)], delta))
  {
    hide EdgesClosed, EndsNamed, NamesBug;
    var linked := LinkDependsOn(expected, bug, declared);
    var edited := EditDependsOn(bugs, ids[BugRef(bug)], delta);
    EditDependsOnClosed(bugs, ids[BugRef(bug)], delta);
    EditDependsOnNamed(ids, expected.Keys, bugs, bug, delta);
    assert linked.Keys == expected.Keys;
    forall a, c | a in expected && c in expected && a != c
      ensures PairAgrees(ids, linked, edited, a, c)
    {
      assert PairAgrees(ids, expected, bugs, a, c);
      assert Apart(ids, BugRef(a), BugRef(bug)) && Apart(ids, BugRef(c), BugRef(bug));
      DependsOnPoint(ids, expected, bugs, bug, declared, delta, a, c);
    }
  }

  lemma EditBlocksClosed(bugs: map<int, Bug>, bug: int, delta: Delta<int>)
    requires EdgesClosed(bugs) && bug in bugs && forall y | y in delta.add :: y in bugs
    ensures EdgesClosed(EditBlocks(bugs, bug, delta))
  {
  }

  lemma EditBlocksAgrees(ids: IdTable, expected: map<string, ExpectedBug>, bugs: map<int, Bug>,
                         bug: string, declared: set<string>, delta: Delta<int>)
    requires OneToOne(ids) && BugsLocated(ids, expected.Keys, bugs.Keys)
    requires EdgesConsistent(expected) && bug in expected
    requires EdgesAgree(ids, expected, bugs)
    requires Serves(ids, expected.Keys, bugs.Keys, bug, expected[bug].blocks, declared, delta)
    ensures EdgesAgree(ids, LinkBlocks(expected, bug, declared), EditBlocks(bugs, ids[BugRef(bug)], delta))
  {
    var linked := LinkBlocks(expected, bug, declared);
    var edited := EditBlocks(bugs, ids[BugRef(bug)], delta);
    EditBlocksClosed(bugs, ids[BugRef(bug)], delta);
    EditBlocksNamed(ids, expected.Keys, bugs, bug, delta);
    assert linked.Keys == expected.Keys;
    forall a, c | a in expected && c in expected && a != c
      ensures PairAgrees(ids, linked, edited, a, c)
    {
      assert PairAgrees(ids, expected, bugs, a, c);
      assert Apart(ids, BugRef(a), BugRef(bug)) && Apart(ids, BugRef(c), BugRef(bug));
      BlocksPoint(ids, expected, bugs, bug, declared, delta, a, c);
    }
  }

  // ----- A whole update: both edge sets, from one snapshot -----

  lemma {:induction false} WithoutNothing<T(!new)>(list: seq<T>)
    ensures Without(list, []) == list
  {
    if list != [] { WithoutNothing(list[1..]); }
  }

  lemma NoEdits(bugs: map<int, Bug>, bug: int)
    ensures EditDependsOn(bugs, bug, NoDelta()) == bugs
    ensures EditBlocks(bugs, bug, NoDelta()) == bugs
  {
    forall k | k in bugs ensures EditDependsOn(bugs, bug, NoDelta())[k] == bugs[k] {
      WithoutNothing(bugs[k].dependsOn);
    }
    forall k | k in bugs ensures EditBlocks(bugs, bug, NoDelta())[k] == bugs[k] {
      WithoutNothing(bugs[k].blocks);
    }
  }

  /** A delta computed from a snapshot still serves at the moment it is applied, if only the bug's
      own self-edge has moved in between. */
  lemma SnapshotServes(ids: IdTable, names: set<string>, served: set<int>, bug: string,
                       before: set<string>, now: set<string>, declared: seq<string>, observed: seq<int>)
    requires OneToOne(ids) && BugsLocated(ids, names, served)
    requires Elements(declared) <= names && ResolveBugs(ids, declared).Some?
    requires forall c | c in names && c != bug :: c in before <==> ids[BugRef(c)] in observed
    requires forall c | c in names && c != bug :: c in before <==> c in now
    ensures Serves(ids, names, served, bug, now, Elements(declared),
                   DeltaOf(ResolveBugs(ids, declared).value, observed))
  {
    var resolved := ResolveBugs(ids, declared).value;
    forall c | c in names
      ensures ids[BugRef(c)] in resolved <==> c in declared
    {
      Resolved(ids, c, declared);
    }
    forall y | y in resolved
      ensures y in served && NamesBug(ids, names, y)
    {
      var k :| 0 <= k < |resolved| && resolved[k] == y;
      assert declared[k] in Elements(declared);
    }
  }

  lemma Resolved(ids: IdTable, bug: string, declared: seq<string>)
    requires OneToOne(ids) && BugRef(bug) in ids && ResolveBugs(ids, declared).Some?
    ensures ids[BugRef(bug)] in ResolveBugs(ids, declared).value <==> bug in declared
  {
    var resolved := ResolveBugs(ids, declared).value;
    if bug in declared {
      var k :| 0 <= k < |declared| && declared[k] == bug;
      assert resolved[k] == ids[BugRef(bug)];
    }
    if ids[BugRef(bug)] in resolved {
      var k :| 0 <= k < |resolved| && resolved[k] == ids[BugRef(bug)];
      assert Apart(ids, BugRef(declared[k]), BugRef(bug));
    }
  }

  function FirstLink(expected: map<string, ExpectedBug>, bug: string, dependsOn: Option<seq<string>>)
    : map<string, ExpectedBug>
    requires bug in expected
  {
    if dependsOn.Some? then LinkDependsOn(expected, bug, Elements(dependsOn.value)) else expected
  }

  /** Linking one side moves the bug's other side only at its own self-edge. */
  lemma FirstLinkBlocks(expected: map<string, ExpectedBug>, bug: string, dependsOn: Option<seq<string>>)
    requires EdgesConsistent(expected) && bug in expected
    ensures FirstLink(expected, bug, dependsOn).Keys == expected.Keys
    ensures forall c | c != bug :: c in expected[bug].blocks <==> c in FirstLink(expected, bug, dependsOn)[bug].blocks
  {
  }

  lemma PairsOfOne(ids: IdTable, expected: map<string, ExpectedBug>, bugs: map<int, Bug>, bug: string)
    requires BugsLocated(ids, expected.Keys, bugs.Keys) && EdgesAgree(ids, expected, bugs) && bug in expected
    ensures forall c | c in expected && c != bug ::
      c in expected[bug].dependsOn <==> ids[BugRef(c)] in bugs[ids[BugRef(bug)]].dependsOn
    ensures forall c | c in expected && c != bug ::
      c in expected[bug].blocks <==> ids[BugRef(c)] in bugs[ids[BugRef(bug)]].blocks
  {
    forall c | c in expected && c != bug
      ensures c in expected[bug].dependsOn <==> ids[BugRef(c)] in bugs[ids[BugRef(bug)]].dependsOn
      ensures c in expected[bug].blocks <==> ids[BugRef(c)] in bugs[ids[BugRef(bug)]].blocks
    {
      assert PairAgrees(ids, expected, bugs, bug, c);
    }
  }

  lemma DependsOnPhase(ids: IdTable, expected: map<string, ExpectedBug>, bugs: map<int, Bug>, bug: string,
                       dependsOn: Option<seq<string>>)
    requires OneToOne(ids) && BugsLocated(ids, expected.Keys, bugs.Keys)
    requires EdgesConsistent(expected) && bug in expected && EdgesAgree(ids, expected, bugs)
    requires Elements(OptionalList(dependsOn)) <= expected.Keys && OptionalBugs(ids, dependsOn).Some?
    ensures var id := ids[BugRef(bug)];
      var first := FirstLink(expected, bug, dependsOn);
      && first.Keys == expected.Keys && EdgesConsistent(first)
      && EdgesAgree(ids, first,
           EditDependsOn(bugs, id, OptionalDelta(OptionalBugs(ids, dependsOn).value, bugs[id].dependsOn)))
  {
    var id := ids[BugRef(bug)];
    NoEdits(bugs, id);
    PairsOfOne(ids, expected, bugs, bug);
    if dependsOn.Some? {
      SnapshotServes(ids, expected.Keys, bugs.Keys, bug, expected[bug].dependsOn, expected[bug].dependsOn,
                     dependsOn.value, bugs[id].dependsOn);
      EditDependsOnAgrees(ids, expected, bugs, bug, Elements(dependsOn.value),
                          OptionalDelta(OptionalBugs(ids, dependsOn).value, bugs[id].dependsOn));
      LinkDependsOnConsistent(expected, bug, Elements(dependsOn.value));
    }
  }

  lemma BlocksPhase(ids: IdTable, first: map<string, ExpectedBug>, edited: map<int, Bug>, bug: string,
                    blocks: Option<seq<string>>, before: set<string>, observed: seq<int>)
    requires OneToOne(ids) && BugsLocated(ids, first.Keys, edited.Keys)
    requires EdgesConsistent(first) && bug in first && EdgesAgree(ids, first, edited)
    requires Elements(OptionalList(blocks)) <= first.Keys && OptionalBugs(ids, blocks).Some?
    requires forall c | c in first && c != bug :: c in before <==> ids[BugRef(c)] in observed
    requires forall c | c in first && c != bug :: c in before <==> c in first[bug].blocks
    ensures var id := ids[BugRef(bug)];
      EdgesAgree(ids, if blocks.Some? then LinkBlocks(first, bug, Elements(blocks.value)) else first,
                 EditBlocks(edited, id, OptionalDelta(OptionalBugs(ids, blocks).value, observed)))
  {
    var id := ids[BugRef(bug)];
    NoEdits(edited, id);
    if blocks.Some? {
      SnapshotServes(ids, first.Keys, edited.Keys, bug, before, first[bug].blocks, blocks.value, observed);
      EditBlocksAgrees(ids, first, edited, bug, Elements(blocks.value),
                       OptionalDelta(OptionalBugs(ids, blocks).value, observed));
    }
  }

  /** Removals and additions of one update, both computed from the same read, leave every edge between
      two bugs where the fold puts it. */
  lemma UpdateEdgesAgree(ids: IdTable, expected: map<string, ExpectedBug>, bugs: map<int, Bug>, bug: string,
                         dependsOn: Option<seq<string>>, blocks: Option<seq<string>>)
    requires OneToOne(ids) && BugsLocated(ids, expected.Keys, bugs.Keys)
    requires EdgesConsistent(expected) && bug in expected && EdgesAgree(ids, expected, bugs)
    requires Elements(OptionalList(dependsOn)) <= expected.Keys && Elements(OptionalList(blocks)) <= expected.Keys
    requires OptionalBugs(ids, dependsOn).Some? && OptionalBugs(ids, blocks).Some?
    ensures var id := ids[BugRef(bug)];
      EdgesAgree(ids, OptionalLinks(expected, bug, dependsOn, blocks),
        EditBlocks(
          EditDependsOn(bugs, id, OptionalDelta(OptionalBugs(ids, dependsOn).value, bugs[id].dependsOn)), id,
          OptionalDelta(OptionalBugs(ids, blocks).value, bugs[id].blocks)))
  {
    var id := ids[BugRef(bug)];
    DependsOnPhase(ids, expected, bugs, bug, dependsOn);
    var first := FirstLink(expected, bug, dependsOn);
    var edited := EditDependsOn(bugs, id, OptionalDelta(OptionalBugs(ids, dependsOn).value, bugs[id].dependsOn));
    assert edited.Keys == bugs.Keys;
    PairsOfOne(ids, expected, bugs, bug);
    FirstLinkBlocks(expected, bug, dependsOn);
    BlocksPhase(ids, first, edited, bug, blocks, expected[bug].blocks, bugs[id].blocks);
  }

  /** Where the two deltas leave the bug's own self-edge. */
  lemma SelfServed(ids: IdTable, bugs: map<int, Bug>, bug: string, dependsOn: Option<seq<string>>,
                   blocks: Option<seq<string>>)
    requires OneToOne(ids) && BugRef(bug) in ids && ids[BugRef(bug)] in bugs
    requires OptionalBugs(ids, dependsOn).Some? && OptionalBugs(ids, blocks).Some?
    requires var id := ids[BugRef(bug)]; id in bugs[id].dependsOn <==> id in bugs[id].blocks
    ensures var id := ids[BugRef(bug)];
      var edited := EditBlocks(
        EditDependsOn(bugs, id, OptionalDelta(OptionalBugs(ids, dependsOn).value, bugs[id].dependsOn)), id,
        OptionalDelta(OptionalBugs(ids, blocks).value, bugs[id].blocks));
      && id in edited
      && (id in edited[id].dependsOn <==> ServedSelf(id in bugs[id].dependsOn, bug, dependsOn, blocks))
      && (id in edited[id].blocks <==> ServedSelf(id in bugs[id].dependsOn, bug, dependsOn, blocks))
  {
    if dependsOn.Some? { Resolved(ids, bug, dependsOn.value); }
    if blocks.Some? { Resolved(ids, bug, blocks.value); }
  }

  lemma SelfFolded(expected: map<string, ExpectedBug>, bug: string, dependsOn: Option<seq<string>>,
                   blocks: Option<seq<string>>)
    requires EdgesConsistent(expected) && bug in expected
    requires Elements(OptionalList(dependsOn)) <= expected.Keys && Elements(OptionalList(blocks)) <= expected.Keys
    ensures bug in OptionalLinks(expected, bug, dependsOn, blocks)[bug].dependsOn
       <==> FoldedSelf(bug in expected[bug].dependsOn, bug, dependsOn, blocks)
  {
    LinksPointwise(expected, bug, dependsOn, blocks);
  }

  /** A self-edge of another bug does not move. */
  lemma SelfElsewhere(ids: IdTable, expected: map<string, ExpectedBug>, bugs: map<int, Bug>, bug: string,
                      dependsOn: Option<seq<string>>, blocks: Option<seq<string>>, dep: Delta<int>, blk: Delta<int>,
                      a: string)
    requires bug in expected && a in expected && a != bug
    requires BugRef(a) in ids && BugRef(bug) in ids && ids[BugRef(a)] in bugs && ids[BugRef(a)] != ids[BugRef(bug)]
    ensures var k := ids[BugRef(a)];
      var edited := EditBlocks(EditDependsOn(bugs, ids[BugRef(bug)], dep), ids[BugRef(bug)], blk);
      && (k in edited[k].dependsOn <==> k in bugs[k].dependsOn)
      && (k in edited[k].blocks <==> k in bugs[k].blocks)
      && (a in OptionalLinks(expected, bug, dependsOn, blocks)[a].dependsOn <==> a in expected[a].dependsOn)
  {
  }

  /** The updated bug's own self-edge. */
  lemma SelfRelinked(gaps: Gaps, ids: IdTable, expected: map<string, ExpectedBug>, bugs: map<int, Bug>,
                     bug: string, dependsOn: Option<seq<string>>, blocks: Option<seq<string>>)
    requires OneToOne(ids) && EdgesConsistent(expected) && bug in expected && SelfAgrees(gaps, ids, expected, bugs, bug)
    requires Elements(OptionalList(dependsOn)) <= expected.Keys && Elements(OptionalList(blocks)) <= expected.Keys
    requires OptionalBugs(ids, dependsOn).Some? && OptionalBugs(ids, blocks).Some?
    ensures var id := ids[BugRef(bug)];
      SelfAgrees(Relinked(gaps, bug in expected[bug].dependsOn, bug, dependsOn, blocks), ids,
        OptionalLinks(expected, bug, dependsOn, blocks),
        EditBlocks(
          EditDependsOn(bugs, id, OptionalDelta(OptionalBugs(ids, dependsOn).value, bugs[id].dependsOn)), id,
          OptionalDelta(OptionalBugs(ids, blocks).value, bugs[id].blocks)), bug)
  {
    hide EdgesConsistent, LinkDependsOn, LinkBlocks, ServedSelf, FoldedSelf, EditBlocks, EditDependsOn, OptionalBugs,
      OneToOne;
    SelfServed(ids, bugs, bug, dependsOn, blocks);
    SelfFolded(expected, bug, dependsOn, blocks);
    OptionalLinksFrame(expected, bug, dependsOn, blocks);
  }

  lemma UpdateSelvesAgree(gaps: Gaps, ids: IdTable, expected: map<string, ExpectedBug>, bugs: map<int, Bug>,
                          bug: string, dependsOn: Option<seq<string>>, blocks: Option<seq<string>>)
    requires OneToOne(ids) && EdgesConsistent(expected) && bug in expected && SelvesAgree(gaps, ids, expected, bugs)
    requires Elements(OptionalList(dependsOn)) <= expected.Keys && Elements(OptionalList(blocks)) <= expected.Keys
    requires OptionalBugs(ids, dependsOn).Some? && OptionalBugs(ids, blocks).Some?
    ensures var id := ids[BugRef(bug)];
      SelvesAgree(Relinked(gaps, bug in expected[bug].dependsOn, bug, dependsOn, blocks), ids,
        OptionalLinks(expected, bug, dependsOn, blocks),
        EditBlocks(
          EditDependsOn(bugs, id, OptionalDelta(OptionalBugs(ids, dependsOn).value, bugs[id].dependsOn)), id,
          OptionalDelta(OptionalBugs(ids, blocks).value, bugs[id].blocks)))
  {
    hide EdgesConsistent, LinkDependsOn, LinkBlocks, ServedSelf, FoldedSelf;
    var id := ids[BugRef(bug)];
    assert SelfAgrees(gaps, ids, expected, bugs, bug);
    SelfRelinked(gaps, ids, expected, bugs, bug, dependsOn, blocks);
    OptionalLinksFrame(expected, bug, dependsOn, blocks);
    var linked := OptionalLinks(expected, bug, dependsOn, blocks);
    var dep := OptionalDelta(OptionalBugs(ids, dependsOn).value, bugs[id].dependsOn);
    var blk := OptionalDelta(OptionalBugs(ids, blocks).value, bugs[id].blocks);
    var relinked := Relinked(gaps, bug in expected[bug].dependsOn, bug, dependsOn, blocks);
    EditsFrame(bugs, id, dep, blk);
    forall a | a in linked
      ensures SelfAgrees(relinked, ids, linked, EditBlocks(EditDependsOn(bugs, id, dep), id, blk), a)
    {
      assert SelfAgrees(gaps, ids, expected, bugs, a);
      if a != bug {
        assert Apart(ids, BugRef(a), BugRef(bug));
        SelfElsewhere(ids, expected, bugs, bug, dependsOn, blocks, dep, blk, a);
      }
    }
  }

  // ----- One event: the committed request against the fold step -----

  /** The event is one the loader would accept here and replay agrees to send. */
  ghost predicate Ready(scenario: Scenario, ids: IdTable, exp: Expectation, event: Event)
  {
    && IsSlug(scenario.name) && ShapeOk(event) && Supported(scenario, event)
    && Sound(exp, ids.Keys) && Resolvable(scenario, event, ids.Keys)
  }

  lemma EdgesUntouched(ids: IdTable, expected: map<string, ExpectedBug>, bugs: map<int, Bug>,
                       expected': map<string, ExpectedBug>, bugs': map<int, Bug>)
    requires BugsLocated(ids, expected.Keys, bugs.Keys) && EdgesAgree(ids, expected, bugs)
    requires expected'.Keys == expected.Keys && bugs'.Keys == bugs.Keys
    requires forall a | a in expected ::
      expected'[a].dependsOn == expected[a].dependsOn && expected'[a].blocks == expected[a].blocks
    requires forall k | k in bugs :: bugs'[k].dependsOn == bugs[k].dependsOn && bugs'[k].blocks == bugs[k].blocks
    ensures EdgesAgree(ids, expected', bugs')
  {
    forall a | a in expected'.Keys ensures EndsNamed(ids, expected'.Keys, bugs', a) {
      assert EndsNamed(ids, expected.Keys, bugs, a);
    }
    forall a, c | a in expected' && c in expected' && a != c ensures PairAgrees(ids, expected', bugs', a, c) {
      assert PairAgrees(ids, expected, bugs, a, c);
      var k := ids[BugRef(a)];
      assert k in bugs;
      assert expected'[a].dependsOn == expected[a].dependsOn && expected'[a].blocks == expected[a].blocks;
      assert bugs'[k].dependsOn == bugs[k].dependsOn && bugs'[k].blocks == bugs[k].blocks;
    }
  }

  lemma SelvesUntouched(gaps: Gaps, gaps': Gaps, ids: IdTable, expected: map<string, ExpectedBug>, bugs: map<int, Bug>,
                        expected': map<string, ExpectedBug>, bugs': map<int, Bug>)
    requires gaps'.maySlip == gaps.maySlip && gaps'.mustSlip == gaps.mustSlip
    requires SelvesAgree(gaps, ids, expected, bugs)
    requires expected'.Keys == expected.Keys && bugs'.Keys == bugs.Keys
    requires forall a | a in expected :: expected'[a].dependsOn == expected[a].dependsOn
    requires forall k | k in bugs :: bugs'[k].dependsOn == bugs[k].dependsOn && bugs'[k].blocks == bugs[k].blocks
    ensures SelvesAgree(gaps', ids, expected', bugs')
  {
    forall a | a in expected' ensures SelfAgrees(gaps', ids, expected', bugs', a) {
      assert SelfAgrees(gaps, ids, expected, bugs, a);
    }
  }

  /** What the gaps say about other bugs' CC, and about everything else, is the same. */
  ghost predicate SameOutside(gaps: Gaps, gaps': Gaps, bug: string)
  {
    && gaps' == gaps.(mayMiss := gaps'.mayMiss, mustMiss := gaps'.mustMiss)
    && OtherBugs(gaps'.mayMiss, bug) == OtherBugs(gaps.mayMiss, bug)
    && OtherBugs(gaps'.mustMiss, bug) == OtherBugs(gaps.mustMiss, bug)
  }

  lemma OtherBugAgrees(gaps: Gaps, gaps': Gaps, scenario: Scenario, ids: IdTable, changed: string, name: string,
                       expected: ExpectedBug, bug: Bug)
    requires SameOutside(gaps, gaps', changed) && name != changed
    requires BugAgrees(gaps, scenario, ids, name, expected, bug)
    ensures BugAgrees(gaps', scenario, ids, name, expected, bug)
  {
    forall login
      ensures (name, login) in gaps'.mayMiss <==> (name, login) in gaps.mayMiss
      ensures (name, login) in gaps'.mustMiss <==> (name, login) in gaps.mustMiss
    {
      assert (name, login) in OtherBugs(gaps'.mayMiss, changed) <==> (name, login) in OtherBugs(gaps.mayMiss, changed);
      var pair := (name, login);
      assert pair in OtherBugs(gaps'.mustMiss, changed) <==> pair in OtherBugs(gaps.mustMiss, changed);
    }
  }

  /** Replacing one bug's own fields on both sides. */
  lemma BugReplaced(gaps: Gaps, gaps': Gaps, scenario: Scenario, ids: IdTable, exp: Expectation, fixture: Fixture,
                    name: string, expected: ExpectedBug, bug: Bug)
    requires Agrees(gaps, scenario, ids, exp, fixture) && name in exp.bugs && SameOutside(gaps, gaps', name)
    requires BugAgrees(gaps', scenario, ids, name, expected, bug)
    requires expected.dependsOn == exp.bugs[name].dependsOn && expected.blocks == exp.bugs[name].blocks
    requires bug.dependsOn == fixture.bugs[ids[BugRef(name)]].dependsOn
    requires bug.blocks == fixture.bugs[ids[BugRef(name)]].blocks
    ensures Agrees(gaps', scenario, ids, exp.(bugs := exp.bugs[name := expected]),
                   fixture.(bugs := fixture.bugs[ids[BugRef(name)] := bug]))
  {
    hide BugAgrees, SelvesAgree, EdgesAgree;
    var id := ids[BugRef(name)];
    var exp', bugs' := exp.bugs[name := expected], fixture.bugs[id := bug];
    assert exp'.Keys == exp.bugs.Keys && bugs'.Keys == fixture.bugs.Keys;
    forall a | a in exp' ensures BugAgrees(gaps', scenario, ids, a, exp'[a], bugs'[ids[BugRef(a)]]) {
      assert Apart(ids, BugRef(a), BugRef(name));
      if a != name { OtherBugAgrees(gaps, gaps', scenario, ids, name, a, exp.bugs[a], fixture.bugs[ids[BugRef(a)]]); }
    }
    EdgesUntouched(ids, exp.bugs, fixture.bugs, exp', bugs');
    SelvesUntouched(gaps, gaps', ids, exp.bugs, fixture.bugs, exp', bugs');
    SameAttachments(gaps, gaps', scenario, ids, exp.attachments, fixture.attachments);
  }

  lemma SameAttachments(gaps: Gaps, gaps': Gaps, scenario: Scenario, ids: IdTable,
                        expected: map<string, ExpectedAttachment>, attachments: map<int, Attachment>)
    requires gaps'.renamed == gaps.renamed && AttachmentsAgree(gaps, scenario, ids, expected, attachments)
    ensures AttachmentsAgree(gaps', scenario, ids, expected, attachments)
  {
  }

  /** Replacing edges alone on both sides. */
  lemma EdgesReplaced(gaps: Gaps, gaps': Gaps, scenario: Scenario, ids: IdTable, exp: Expectation, fixture: Fixture,
                      linked: map<string, ExpectedBug>, edited: map<int, Bug>)
    requires Agrees(gaps, scenario, ids, exp, fixture)
    requires gaps' == gaps.(maySlip := gaps'.maySlip, mustSlip := gaps'.mustSlip)
    requires linked.Keys == exp.bugs.Keys && edited.Keys == fixture.bugs.Keys
    requires forall a | a in linked ::
      linked[a] == exp.bugs[a].(dependsOn := linked[a].dependsOn, blocks := linked[a].blocks)
    requires forall k | k in edited ::
      edited[k] == fixture.bugs[k].(dependsOn := edited[k].dependsOn, blocks := edited[k].blocks)
    requires EdgesAgree(ids, linked, edited) && SelvesAgree(gaps', ids, linked, edited)
    ensures Agrees(gaps', scenario, ids, exp.(bugs := linked), fixture.(bugs := edited))
  {
    hide BugAgrees, SelvesAgree, EdgesAgree;
    forall a | a in linked ensures BugAgrees(gaps', scenario, ids, a, linked[a], edited[ids[BugRef(a)]]) {
      var k := ids[BugRef(a)];
      assert BugAgrees(gaps, scenario, ids, a, exp.bugs[a], fixture.bugs[k]);
      EdgesIrrelevant(gaps, gaps', scenario, ids, a, exp.bugs[a], fixture.bugs[k], linked[a], edited[k]);
    }
    SameAttachments(gaps, gaps', scenario, ids, exp.attachments, fixture.attachments);
  }

  lemma EdgesIrrelevant(gaps: Gaps, gaps': Gaps, scenario: Scenario, ids: IdTable, name: string,
                        expected: ExpectedBug, bug: Bug, expected': ExpectedBug, bug': Bug)
    requires gaps'.mayMiss == gaps.mayMiss && gaps'.mustMiss == gaps.mustMiss
    requires BugAgrees(gaps, scenario, ids, name, expected, bug)
    requires expected' == expected.(dependsOn := expected'.dependsOn, blocks := expected'.blocks)
    requires bug' == bug.(dependsOn := bug'.dependsOn, blocks := bug'.blocks)
    ensures BugAgrees(gaps', scenario, ids, name, expected', bug')
  {
    assert expected'.comments == expected.comments && expected'.attachments == expected.attachments;
    assert expected'.cc == expected.cc && expected'.keywords == expected.keywords
        && expected'.groups == expected.groups;
  }

  lemma EditsFrame(bugs: map<int, Bug>, id: int, dep: Delta<int>, blk: Delta<int>)
    ensures var edited := EditBlocks(EditDependsOn(bugs, id, dep), id, blk);
      && edited.Keys == bugs.Keys
      && forall k | k in edited :: edited[k] == bugs[k].(dependsOn := edited[k].dependsOn, blocks := edited[k].blocks)
  {
  }

  /** With a larger id table, everything already agreed still agrees. */
  lemma BugAgreesMore(gaps: Gaps, scenario: Scenario, ids: IdTable, more: IdTable, name: string,
                      expected: ExpectedBug, bug: Bug)
    requires BugAgrees(gaps, scenario, ids, name, expected, bug)
    requires forall r | r in ids :: r in more && more[r] == ids[r]
    ensures BugAgrees(gaps, scenario, more, name, expected, bug)
  {
  }

  lemma AllResolve(ids: IdTable, names: seq<string>)
    requires BugRefs(names) <= ids.Keys
    ensures ResolveBugs(ids, names).Some?
  {
    forall n | n in names ensures BugRef(n) in ids { assert BugRef(n) in BugRefs(names); }
  }

  /** `resolve` never fails for an event the loader accepted at this point. */
  lemma BuildSucceeds(scenario: Scenario, ids: IdTable, exp: Expectation, event: Event, fixture: Fixture)
    requires Located(ids, exp, fixture) && Resolvable(scenario, event, ids.Keys)
    ensures Build(scenario, ids, event, fixture).Some?
    ensures !event.action.BugCreate? ==> Accepts(fixture, Build(scenario, ids, event, fixture).value)
  {
    match event.action
    case BugCreate(_, _, _, _, _, _, _, dependsOn, blocks) =>
      AllResolve(ids, dependsOn);
      AllResolve(ids, blocks);
    case BugUpdate(bug, _, _, _, _, _, dependsOn, blocks, _) =>
      assert BugRef(bug) in Uses(event);
      AllResolve(ids, OptionalList(dependsOn));
      AllResolve(ids, OptionalList(blocks));
    case AttachmentUpdate(attachment, _, _) => assert AttachmentRef(attachment) in Uses(event);
    case _ => assert BugRef(event.action.bug) in Uses(event);
  }

  /** The bug's own fields after an update request reaches the server. */
  function EditedBug(event: Event, observed: Bug, request: Request): Bug
    requires event.action.BugUpdate? && request.UpdateBug?
  {
    observed.(scalars := Marked(observed.scalars + event.action.scalars, request.dupe),
              dupeOf := if request.dupe.Some? then request.dupe else observed.dupeOf,
              cc := ApplyDelta(observed.cc, request.ccDelta),
              keywords := ApplyDelta(observed.keywords, request.keywordsDelta),
              groups := ApplyDelta(observed.groups, request.groupsDelta))
  }

  lemma NamesAgree(gaps: Gaps, scenario: Scenario, ids: IdTable, event: Event, expected: ExpectedBug,
                   observed: Bug, request: Request)
    requires event.action.BugUpdate? && request.UpdateBug? && Actors(event) <= scenario.emails.Keys
    requires BugAgrees(gaps, scenario, ids, event.action.bug, expected, observed)
    requires request.ccDelta == OptionalDelta(OptionalEmails(scenario.emails, event.action.newCc), observed.cc)
    requires request.keywordsDelta == OptionalDelta(event.action.newKeywords, observed.keywords)
    requires request.groupsDelta == OptionalDelta(event.action.newGroups, observed.groups)
    requires !Unresolved(ids, event.action.duplicateOf) && request.dupe == OptionalBug(ids, event.action.duplicateOf)
    requires Supported(scenario, event)
    ensures BugAgrees(Readdressed(gaps, event), scenario, ids, event.action.bug,
                      UpdatedNames(scenario, event, expected), EditedBug(event, observed, request))
  {
    OptionalDeltaReaches(OptionalEmails(scenario.emails, event.action.newCc), observed.cc);
    OptionalDeltaReaches(event.action.newKeywords, observed.keywords);
    OptionalDeltaReaches(event.action.newGroups, observed.groups);
    var named, edited := UpdatedNames(scenario, event, expected), EditedBug(event, observed, request);
    if event.action.newCc.Some? {
      forall login ensures login in edited.cc <==> login in named.cc {
        assert login in edited.cc <==> login in Elements(edited.cc);
      }
    }
  }

  /** The update request, and what committing it does, spelled out. */
  lemma UpdateRequest(scenario: Scenario, ids: IdTable, event: Event, fixture: Fixture, author: string)
    requires event.action.BugUpdate? && Actors(event) <= scenario.emails.Keys
    requires Build(scenario, ids, event, fixture).Some?
    ensures var a := event.action;
      && BugRef(a.bug) in ids && ids[BugRef(a.bug)] in fixture.bugs
      && OptionalBugs(ids, a.newDependsOn).Some? && OptionalBugs(ids, a.newBlocks).Some?
      && !Unresolved(ids, a.duplicateOf)
      && var id := ids[BugRef(a.bug)];
         var observed := fixture.bugs[id];
         var request := Build(scenario, ids, event, fixture).value;
         && request == UpdateBug(id, a.scalars,
              OptionalDelta(OptionalEmails(scenario.emails, a.newCc), observed.cc),
              OptionalDelta(a.newKeywords, observed.keywords),
              OptionalDelta(a.newGroups, observed.groups),
              OptionalDelta(OptionalBugs(ids, a.newDependsOn).value, observed.dependsOn),
              OptionalDelta(OptionalBugs(ids, a.newBlocks).value, observed.blocks), OptionalBug(ids, a.duplicateOf))
         && Accepts(fixture, request)
         && var placed := fixture.bugs[id := EditedBug(event, observed, request)];
            Commit(fixture, author, request) == fixture.(bugs :=
              EditBlocks(EditDependsOn(placed, id, request.dependsOnDelta), id, request.blocksDelta))
  {
  }

  lemma CommitUpdateAgrees(gaps: Gaps, scenario: Scenario, ids: IdTable, exp: Expectation, event: Event,
                           fixture: Fixture, author: string)
    requires event.action.BugUpdate?
    requires Agrees(gaps, scenario, ids, exp, fixture) && Ready(scenario, ids, exp, event)
    requires Applicable(exp, event) && Build(scenario, ids, event, fixture).Some?
    requires Accepts(fixture, Build(scenario, ids, event, fixture).value)
    ensures Agrees(After(gaps, scenario, exp, event), scenario, ids, FoldUpdate(scenario, exp, event),
                   Commit(fixture, author, Build(scenario, ids, event, fixture).value))
  {
    var a := event.action;
    UpdateRequest(scenario, ids, event, fixture, author);
    var id := ids[BugRef(a.bug)];
    var request := Build(scenario, ids, event, fixture).value;
    RefsAreKeys(exp, ids.Keys, OptionalList(a.newDependsOn));
    RefsAreKeys(exp, ids.Keys, OptionalList(a.newBlocks));
    UpdateApplied(gaps, scenario, ids, exp, event, fixture, request);
  }

  lemma UpdateApplied(gaps: Gaps, scenario: Scenario, ids: IdTable, exp: Expectation, event: Event,
                      fixture: Fixture, request: Request)
    requires event.action.BugUpdate? && request.UpdateBug? && Actors(event) <= scenario.emails.Keys
    requires Agrees(gaps, scenario, ids, exp, fixture) && EdgesConsistent(exp.bugs) && event.action.bug in exp.bugs
    requires Elements(OptionalList(event.action.newDependsOn)) <= exp.bugs.Keys
    requires Elements(OptionalList(event.action.newBlocks)) <= exp.bugs.Keys
    requires OptionalBugs(ids, event.action.newDependsOn).Some? && OptionalBugs(ids, event.action.newBlocks).Some?
    requires !Unresolved(ids, event.action.duplicateOf) && request.dupe == OptionalBug(ids, event.action.duplicateOf)
    requires Supported(scenario, event)
    requires var observed := fixture.bugs[ids[BugRef(event.action.bug)]];
      && request.ccDelta == OptionalDelta(OptionalEmails(scenario.emails, event.action.newCc), observed.cc)
      && request.keywordsDelta == OptionalDelta(event.action.newKeywords, observed.keywords)
      && request.groupsDelta == OptionalDelta(event.action.newGroups, observed.groups)
      && request.dependsOnDelta == OptionalDelta(OptionalBugs(ids, event.action.newDependsOn).value, observed.dependsOn)
      && request.blocksDelta == OptionalDelta(OptionalBugs(ids, event.action.newBlocks).value, observed.blocks)
    ensures var id := ids[BugRef(event.action.bug)];
      var placed := fixture.bugs[id := EditedBug(event, fixture.bugs[id], request)];
      Agrees(Relinked(Readdressed(gaps, event), event.action.bug in exp.bugs[event.action.bug].dependsOn,
                      event.action.bug, event.action.newDependsOn, event.action.newBlocks),
             scenario, ids, FoldUpdate(scenario, exp, event), fixture.(bugs :=
        EditBlocks(EditDependsOn(placed, id, request.dependsOnDelta), id, request.blocksDelta)))
  {
    hide BugAgrees, OneToOne, AttachmentsAgree, EdgesAgree, SelvesAgree, EdgesConsistent, Relinked;
    var a := event.action;
    var id := ids[BugRef(a.bug)];
    var named := UpdatedNames(scenario, event, exp.bugs[a.bug]);
    var edited := EditedBug(event, fixture.bugs[id], request);
    NamesAgree(gaps, scenario, ids, event, exp.bugs[a.bug], fixture.bugs[id], request);
    var gaps1 := Readdressed(gaps, event);
    BugReplaced(gaps, gaps1, scenario, ids, exp, fixture, a.bug, named, edited);
    var exp1 := exp.(bugs := exp.bugs[a.bug := named]);
    var fixture1 := fixture.(bugs := fixture.bugs[id := edited]);
    EdgesFramed(exp.bugs, exp1.bugs);
    EdgesUpdated(gaps1, scenario, ids, exp1, fixture1, a.bug, a.newDependsOn, a.newBlocks);
  }

  /** The edge half of an update, on states whose own fields already agree. */
  lemma EdgesUpdated(gaps: Gaps, scenario: Scenario, ids: IdTable, exp: Expectation, fixture: Fixture,
                     bug: string, dependsOn: Option<seq<string>>, blocks: Option<seq<string>>)
    requires Agrees(gaps, scenario, ids, exp, fixture) && EdgesConsistent(exp.bugs) && bug in exp.bugs
    requires Elements(OptionalList(dependsOn)) <= exp.bugs.Keys && Elements(OptionalList(blocks)) <= exp.bugs.Keys
    requires OptionalBugs(ids, dependsOn).Some? && OptionalBugs(ids, blocks).Some?
    ensures var id := ids[BugRef(bug)];
      var observed := fixture.bugs[id];
      Agrees(Relinked(gaps, bug in exp.bugs[bug].dependsOn, bug, dependsOn, blocks), scenario, ids,
        exp.(bugs := OptionalLinks(exp.bugs, bug, dependsOn, blocks)),
        fixture.(bugs := EditBlocks(
          EditDependsOn(fixture.bugs, id, OptionalDelta(OptionalBugs(ids, dependsOn).value, observed.dependsOn)), id,
          OptionalDelta(OptionalBugs(ids, blocks).value, observed.blocks))))
  {
    var id := ids[BugRef(bug)];
    var dep := OptionalDelta(OptionalBugs(ids, dependsOn).value, fixture.bugs[id].dependsOn);
    var blk := OptionalDelta(OptionalBugs(ids, blocks).value, fixture.bugs[id].blocks);
    UpdateEdgesAgree(ids, exp.bugs, fixture.bugs, bug, dependsOn, blocks);
    UpdateSelvesAgree(gaps, ids, exp.bugs, fixture.bugs, bug, dependsOn, blocks);
    OptionalLinksFrame(exp.bugs, bug, dependsOn, blocks);
    EditsFrame(fixture.bugs, id, dep, blk);
    EdgesReplaced(gaps, Relinked(gaps, bug in exp.bugs[bug].dependsOn, bug, dependsOn, blocks), scenario, ids, exp,
                  fixture, OptionalLinks(exp.bugs, bug, dependsOn, blocks),
                  EditBlocks(EditDependsOn(fixture.bugs, id, dep), id, blk));
  }

  // ----- Creating a bug -----

  lemma {:induction false} ResolveMore(ids: IdTable, more: IdTable, names: seq<string>)
    requires ResolveBugs(ids, names).Some?
    requires forall r | r in ids :: r in more && more[r] == ids[r]
    ensures ResolveBugs(more, names) == ResolveBugs(ids, names)
  {
    if names != [] { ResolveMore(ids, more, names[1..]); }
  }

  /** A new bug, before its edges, on both sides. */
  lemma BugPlaced(gaps: Gaps, scenario: Scenario, ids: IdTable, exp: Expectation, fixture: Fixture,
                  name: string, expected: ExpectedBug, bug: Bug)
    requires Agrees(gaps, scenario, ids, exp, fixture) && EdgesConsistent(exp.bugs) && name !in exp.bugs
    requires BugAgrees(Forgotten(gaps, name), scenario, ids, name, expected, bug)
    requires expected.dependsOn == {} && expected.blocks == {} && bug.dependsOn == [] && bug.blocks == []
    ensures Agrees(Forgotten(gaps, name), scenario, ids[BugRef(name) := fixture.nextBug],
                   exp.(bugs := exp.bugs[name := expected]),
                   fixture.(bugs := fixture.bugs[fixture.nextBug := bug], nextBug := fixture.nextBug + 1))
    ensures EdgesConsistent(exp.bugs[name := expected])
  {
    var id := fixture.nextBug;
    var ids' := ids[BugRef(name) := id];
    hide BugAgrees, AttachmentAgrees, OneToOne, EdgesClosed, SelfAgrees, Forgotten, BugsAgree, AttachmentsAgree;
    var exp', bugs' := exp.bugs[name := expected], fixture.bugs[id := bug];
    PlacedLocated(ids, exp, fixture, name, expected, bug);
    BugsPlaced(gaps, scenario, ids, exp.bugs, fixture.bugs, name, expected, id, bug);
    AttachmentsAgreeMore(gaps, scenario, ids, ids', exp.attachments, fixture.attachments);
    assert Forgotten(gaps, name).renamed == gaps.renamed by { RenamedKept(gaps, name); }
    SameAttachments(gaps, Forgotten(gaps, name), scenario, ids', exp.attachments, fixture.attachments);
    EdgesPlaced(ids, exp.bugs, fixture.bugs, name, expected, id, bug);
    SelvesPlaced(gaps, ids, exp.bugs, fixture.bugs, name, expected, id, bug);
  }

  lemma RenamedKept(gaps: Gaps, name: string)
    ensures Forgotten(gaps, name).renamed == gaps.renamed
  {
  }

  lemma SelvesPlaced(gaps: Gaps, ids: IdTable, expected: map<string, ExpectedBug>, bugs: map<int, Bug>,
                     name: string, eb: ExpectedBug, id: int, b: Bug)
    requires SelvesAgree(gaps, ids, expected, bugs) && BugRef(name) !in ids && id !in bugs
    requires eb.dependsOn == {} && b.dependsOn == [] && b.blocks == []
    ensures SelvesAgree(Forgotten(gaps, name), ids[BugRef(name) := id], expected[name := eb], bugs[id := b])
  {
    var ids', expected', bugs' := ids[BugRef(name) := id], expected[name := eb], bugs[id := b];
    forall a | a in expected' ensures SelfAgrees(Forgotten(gaps, name), ids', expected', bugs', a) {
      if a != name { assert SelfAgrees(gaps, ids, expected, bugs, a); }
    }
  }

  lemma AttachmentsAgreeMore(gaps: Gaps, scenario: Scenario, ids: IdTable, more: IdTable,
                             expected: map<string, ExpectedAttachment>, attachments: map<int, Attachment>)
    requires AttachmentsLocated(ids, expected.Keys, attachments.Keys)
    requires AttachmentsLocated(more, expected.Keys, attachments.Keys)
    requires AttachmentsAgree(gaps, scenario, ids, expected, attachments)
    requires forall r | r in ids :: r in more && more[r] == ids[r]
    ensures AttachmentsAgree(gaps, scenario, more, expected, attachments)
  {
    forall x | x in expected
      ensures AttachmentAgrees(gaps, scenario, more, expected[x], attachments[more[AttachmentRef(x)]])
    {
      assert AttachmentAgrees(gaps, scenario, ids, expected[x], attachments[ids[AttachmentRef(x)]]);
    }
  }

  lemma BugsPlaced(gaps: Gaps, scenario: Scenario, ids: IdTable, expected: map<string, ExpectedBug>,
                   bugs: map<int, Bug>, name: string, eb: ExpectedBug, id: int, b: Bug)
    requires BugsAgree(gaps, scenario, ids, expected, bugs) && BugRef(name) !in ids && id !in bugs
    requires BugAgrees(Forgotten(gaps, name), scenario, ids, name, eb, b)
    ensures BugsAgree(Forgotten(gaps, name), scenario, ids[BugRef(name) := id], expected[name := eb], bugs[id := b])
  {
    var ids', gaps' := ids[BugRef(name) := id], Forgotten(gaps, name);
    forall a | a in expected[name := eb]
      ensures BugRef(a) in ids' && ids'[BugRef(a)] in bugs[id := b]
      ensures BugAgrees(gaps', scenario, ids', a, expected[name := eb][a], bugs[id := b][ids'[BugRef(a)]])
    {
      if a != name {
        var k := ids[BugRef(a)];
        BugAgreesMore(gaps, scenario, ids, ids', a, expected[a], bugs[k]);
        OthersNotForgotten(gaps, scenario, ids', name, a, expected[a], bugs[k]);
      } else {
        BugAgreesMore(gaps', scenario, ids, ids', name, eb, b);
      }
    }
  }

  lemma OthersNotForgotten(gaps: Gaps, scenario: Scenario, ids: IdTable, forgotten: string, name: string,
                           expected: ExpectedBug, bug: Bug)
    requires name != forgotten && BugAgrees(gaps, scenario, ids, name, expected, bug)
    ensures BugAgrees(Forgotten(gaps, forgotten), scenario, ids, name, expected, bug)
  {
  }

  lemma PlacedNamed(ids: IdTable, names: set<string>, bugs: map<int, Bug>, name: string, id: int, b: Bug)
    requires EdgesNamed(ids, names, bugs) && name !in names && id !in bugs && b.dependsOn == [] && b.blocks == []
    ensures EdgesNamed(ids[BugRef(name) := id], names + {name}, bugs[id := b])
  {
    forall a | a in names + {name} ensures EndsNamed(ids[BugRef(name) := id], names + {name}, bugs[id := b], a) {
      if a != name {
        assert EndsNamed(ids, names, bugs, a);
        forall y | NamesBug(ids, names, y) ensures NamesBug(ids[BugRef(name) := id], names + {name}, y) {
          NamesMore(ids, ids[BugRef(name) := id], names, names + {name}, y, name);
        }
      }
    }
  }

  lemma NamesMore(ids: IdTable, more: IdTable, names: set<string>, wider: set<string>, k: int, added: string)
    requires NamesBug(ids, names, k) && names <= wider && added !in names
    requires forall r | r in ids && r != BugRef(added) :: r in more && more[r] == ids[r]
    ensures NamesBug(more, wider, k)
  {
    var a :| a in names && BugRef(a) in ids && ids[BugRef(a)] == k;
    assert more[BugRef(a)] == k;
  }

  lemma EdgesPlaced(ids: IdTable, expected: map<string, ExpectedBug>, bugs: map<int, Bug>,
                    name: string, eb: ExpectedBug, id: int, b: Bug)
    requires BugsLocated(ids, expected.Keys, bugs.Keys) && EdgesAgree(ids, expected, bugs)
    requires EdgesConsistent(expected) && name !in expected && id !in bugs
    requires BugsLocated(ids[BugRef(name) := id], expected[name := eb].Keys, bugs[id := b].Keys)
    requires eb.dependsOn == {} && eb.blocks == {} && b.dependsOn == [] && b.blocks == []
    ensures EdgesAgree(ids[BugRef(name) := id], expected[name := eb], bugs[id := b])
  {
    var ids', expected', bugs' := ids[BugRef(name) := id], expected[name := eb], bugs[id := b];
    PlacedNamed(ids, expected.Keys, bugs, name, id, b);
    assert expected'.Keys == expected.Keys + {name};
    forall a, c | a in expected' && c in expected' && a != c ensures PairAgrees(ids', expected', bugs', a, c) {
      var k := ids'[BugRef(a)];
      assert k in bugs';
      if a != name {
        assert a in expected && k == ids[BugRef(a)] && k in bugs && bugs'[k] == bugs[k] && expected'[a] == expected[a];
        if c != name { assert PairAgrees(ids, expected, bugs, a, c); }
      }
    }
  }

  lemma PlacedLocated(ids: IdTable, exp: Expectation, fixture: Fixture, name: string, expected: ExpectedBug, bug: Bug)
    requires Located(ids, exp, fixture) && name !in exp.bugs
    ensures Located(ids[BugRef(name) := fixture.nextBug], exp.(bugs := exp.bugs[name := expected]),
                    fixture.(bugs := fixture.bugs[fixture.nextBug := bug], nextBug := fixture.nextBug + 1))
  {
    var id := fixture.nextBug;
    var ids' := ids[BugRef(name) := id];
    OneToOneExtended(ids, BugRef(name), id);
    assert BugsLocated(ids', exp.bugs[name := expected].Keys, fixture.bugs[id := bug].Keys);
    AttachmentsStillLocated(ids, ids', exp.attachments.Keys, fixture.attachments.Keys);
  }

  lemma AttachmentsStillLocated(ids: IdTable, more: IdTable, names: set<string>, served: set<int>)
    requires AttachmentsLocated(ids, names, served)
    requires forall r | r in ids :: r in more && more[r] == ids[r]
    requires forall x :: AttachmentRef(x) in more ==> AttachmentRef(x) in ids
    ensures AttachmentsLocated(more, names, served)
  {
  }

  lemma BugsStillLocated(ids: IdTable, more: IdTable, names: set<string>, served: set<int>)
    requires BugsLocated(ids, names, served)
    requires forall r | r in ids :: r in more && more[r] == ids[r]
    requires forall a :: BugRef(a) in more ==> BugRef(a) in ids
    ensures BugsLocated(more, names, served)
  {
  }

  /** The create request, and what committing it does, spelled out. */
  lemma CreateRequest(scenario: Scenario, ids: IdTable, event: Event, fixture: Fixture, author: string)
    requires event.action.BugCreate? && Actors(event) <= scenario.emails.Keys
    requires Build(scenario, ids, event, fixture).Some?
    requires Accepts(fixture, Build(scenario, ids, event, fixture).value)
    ensures var a := event.action;
      && ResolveBugs(ids, a.dependsOn).Some? && ResolveBugs(ids, a.blocks).Some?
      && var id := fixture.nextBug;
         var placed := fixture.bugs[id := CreatedBug(scenario, event, author)];
         Commit(fixture, author, Build(scenario, ids, event, fixture).value) == fixture.(
           bugs := EditBlocks(EditDependsOn(placed, id, DeltaOf(ResolveBugs(ids, a.dependsOn).value, [])), id,
                              DeltaOf(ResolveBugs(ids, a.blocks).value, [])),
           aliases := fixture.aliases[a.serverAlias := id],
           nextBug := id + 1)
  {
    WithoutNothing(ResolveBugs(ids, event.action.dependsOn).value);
    WithoutNothing(ResolveBugs(ids, event.action.blocks).value);
  }

  function CreatedBug(scenario: Scenario, event: Event, author: string): Bug
    requires event.action.BugCreate? && Actors(event) <= scenario.emails.Keys
  {
    var a := event.action;
    Bug(a.scalars, map[], map[], Emails(scenario.emails, a.cc), a.keywords, a.groups, [], [], None,
        [Comment(author, a.description, false)], [])
  }

  /** A created bug cannot name itself, so its self-edge is where the fold has it. */
  lemma NewSelfEdge(gaps: Gaps, bug: string, dependsOn: seq<string>, blocks: seq<string>)
    requires bug !in Elements(dependsOn) && bug !in Elements(blocks)
    ensures Relinked(Forgotten(gaps, bug), false, bug, Some(dependsOn), Some(blocks)) == Forgotten(gaps, bug)
  {
  }

  /** A created bug and its edges, on both sides, under the extended id table. */
  lemma NewBugAgrees(gaps: Gaps, scenario: Scenario, ids: IdTable, event: Event, author: string)
    requires event.action.BugCreate? && Actors(event) <= scenario.emails.Keys && Unmarked(event.action.description)
    requires author == scenario.emails[event.actor]
    ensures BugAgrees(Forgotten(gaps, event.action.bug), scenario, ids, event.action.bug, NewBug(scenario, event),
                      CreatedBug(scenario, event, author))
  {
    assert ThreadAgrees(scenario, NewBug(scenario, event).comments, CreatedBug(scenario, event, author).comments);
  }

  lemma NotNamedYet(gaps: Gaps, scenario: Scenario, ids: IdTable, exp: Expectation, fixture: Fixture, bug: string)
    requires Agrees(gaps, scenario, ids, exp, fixture) && bug !in exp.bugs
    ensures BugRef(bug) !in ids
  {
  }

  function Placed(exp: Expectation, bug: string, expected: ExpectedBug): Expectation
  {
    exp.(bugs := exp.bugs[bug := expected])
  }

  function PlacedOn(fixture: Fixture, bug: Bug): Fixture
  {
    fixture.(bugs := fixture.bugs[fixture.nextBug := bug], nextBug := fixture.nextBug + 1)
  }

  /** A created bug before its edges. */
  lemma NewBugPlaced(gaps: Gaps, scenario: Scenario, ids: IdTable, exp: Expectation, event: Event,
                     fixture: Fixture, author: string)
    requires event.action.BugCreate? && Actors(event) <= scenario.emails.Keys
    requires Agrees(gaps, scenario, ids, exp, fixture) && EdgesConsistent(exp.bugs)
    requires event.action.bug !in exp.bugs && Unmarked(event.action.description)
    requires author == scenario.emails[event.actor]
    requires ResolveBugs(ids, event.action.dependsOn).Some? && ResolveBugs(ids, event.action.blocks).Some?
    ensures var a := event.action;
      var ids' := ids[BugRef(a.bug) := fixture.nextBug];
      && Agrees(Forgotten(gaps, a.bug), scenario, ids', Placed(exp, a.bug, NewBug(scenario, event)),
                PlacedOn(fixture, CreatedBug(scenario, event, author)))
      && EdgesConsistent(Placed(exp, a.bug, NewBug(scenario, event)).bugs)
      && ResolveBugs(ids', a.dependsOn) == ResolveBugs(ids, a.dependsOn)
      && ResolveBugs(ids', a.blocks) == ResolveBugs(ids, a.blocks)
  {
    hide Agrees, BugAgrees, Unmarked, EdgesConsistent, ResolveBugs;
    var a := event.action;
    NewBugAgrees(gaps, scenario, ids, event, author);
    NotNamedYet(gaps, scenario, ids, exp, fixture, a.bug);
    BugPlaced(gaps, scenario, ids, exp, fixture, a.bug, NewBug(scenario, event), CreatedBug(scenario, event, author));
    ResolveMore(ids, ids[BugRef(a.bug) := fixture.nextBug], a.dependsOn);
    ResolveMore(ids, ids[BugRef(a.bug) := fixture.nextBug], a.blocks);
  }

  lemma BugCreated(gaps: Gaps, scenario: Scenario, ids: IdTable, exp: Expectation, event: Event,
                   fixture: Fixture, author: string)
    requires event.action.BugCreate? && Actors(event) <= scenario.emails.Keys
    requires Agrees(gaps, scenario, ids, exp, fixture) && EdgesConsistent(exp.bugs)
    requires event.action.bug !in exp.bugs && Unmarked(event.action.description)
    requires author == scenario.emails[event.actor]
    requires Elements(event.action.dependsOn) <= exp.bugs.Keys && Elements(event.action.blocks) <= exp.bugs.Keys
    requires ResolveBugs(ids, event.action.dependsOn).Some? && ResolveBugs(ids, event.action.blocks).Some?
    ensures var a := event.action;
      var id := fixture.nextBug;
      var placed := fixture.bugs[id := CreatedBug(scenario, event, author)];
      Agrees(Forgotten(gaps, a.bug), scenario, ids[BugRef(a.bug) := id], FoldCreate(scenario, exp, event), fixture.(
        bugs := EditBlocks(EditDependsOn(placed, id, DeltaOf(ResolveBugs(ids, a.dependsOn).value, [])), id,
                           DeltaOf(ResolveBugs(ids, a.blocks).value, [])),
        nextBug := id + 1))
  {
    hide Agrees, Unmarked, EdgesConsistent, ResolveBugs, Relinked, Forgotten, LinkDependsOn, LinkBlocks, EditBlocks,
      EditDependsOn, DeltaOf;
    var a := event.action;
    assert a.bug !in Elements(a.dependsOn) && a.bug !in Elements(a.blocks);
    NewSelfEdge(gaps, a.bug, a.dependsOn, a.blocks);
    NewBugPlaced(gaps, scenario, ids, exp, event, fixture, author);
    EdgesUpdated(Forgotten(gaps, a.bug), scenario, ids[BugRef(a.bug) := fixture.nextBug],
                 Placed(exp, a.bug, NewBug(scenario, event)), PlacedOn(fixture, CreatedBug(scenario, event, author)),
                 a.bug, Some(a.dependsOn), Some(a.blocks));
  }

  lemma CommitCreateAgrees(gaps: Gaps, scenario: Scenario, ids: IdTable, exp: Expectation, event: Event,
                           fixture: Fixture)
    requires event.action.BugCreate?
    requires Agrees(gaps, scenario, ids, exp, fixture) && Ready(scenario, ids, exp, event)
    requires Build(scenario, ids, event, fixture).Some?
    requires Accepts(fixture, Build(scenario, ids, event, fixture).value)
    ensures Agrees(Forgotten(gaps, event.action.bug), scenario, ids[BugRef(event.action.bug) := fixture.nextBug],
                   FoldCreate(scenario, exp, event),
                   Commit(fixture, scenario.emails[event.actor], Build(scenario, ids, event, fixture).value))
  {
    var a := event.action;
    var author := scenario.emails[event.actor];
    CreateRequest(scenario, ids, event, fixture, author);
    var committed := Commit(fixture, author, Build(scenario, ids, event, fixture).value);
    assert BugRef(a.bug) in Creates(event);
    RefsAreKeys(exp, ids.Keys, a.dependsOn);
    RefsAreKeys(exp, ids.Keys, a.blocks);
    BugCreated(gaps, scenario, ids, exp, event, fixture, author);
    AliasesIrrelevant(Forgotten(gaps, a.bug), scenario, ids[BugRef(a.bug) := fixture.nextBug],
                      FoldCreate(scenario, exp, event), committed.(aliases := fixture.aliases), committed);
  }

  lemma AliasesIrrelevant(gaps: Gaps, scenario: Scenario, ids: IdTable, exp: Expectation,
                          fixture: Fixture, fixture': Fixture)
    requires Agrees(gaps, scenario, ids, exp, fixture)
    requires fixture' == fixture.(aliases := fixture'.aliases)
    ensures Agrees(gaps, scenario, ids, exp, fixture')
  {
  }

  // ----- Threads, attachments, custom fields and flags -----

  lemma CommentAppended(gaps: Gaps, scenario: Scenario, ids: IdTable, exp: Expectation, fixture: Fixture,
                        event: Event, bug: string, body: string, isPrivate: bool)
    requires Agrees(gaps, scenario, ids, exp, fixture) && bug in exp.bugs
    requires IsSlug(event.name) && Unmarked(body) && event.actor in scenario.emails
    ensures var marker := MarkerOf(scenario, event);
      Agrees(gaps, scenario, ids,
        FoldComment(exp, bug, ExpectedComment(Some(marker), event.actor, isPrivate, None)),
        AppendComment(fixture, ids[BugRef(bug)],
                      Comment(scenario.emails[event.actor], RenderMarker(body, marker), isPrivate)))
  {
    var marker := MarkerOf(scenario, event);
    var id := ids[BugRef(bug)];
    var eb, b := exp.bugs[bug], fixture.bugs[id];
    var ec := ExpectedComment(Some(marker), event.actor, isPrivate, None);
    var c := Comment(scenario.emails[event.actor], RenderMarker(body, marker), isPrivate);
    assert c.text[..|c.text| - |marker| - 4] == body;
    assert CommentAgrees(scenario, ec, c);
    assert BugAgrees(gaps, scenario, ids, bug, eb, b);
    assert ThreadAgrees(scenario, eb.comments + [ec], b.comments + [c]);
    BugReplaced(gaps, gaps, scenario, ids, exp, fixture, bug, eb.(comments := eb.comments + [ec]),
                b.(comments := b.comments + [c]));
  }

  lemma FlagApplied(gaps: Gaps, scenario: Scenario, ids: IdTable, event: Event, expected: ExpectedBug, bug: Bug)
    requires event.action.BugFlag? && Actors(event) <= scenario.emails.Keys
    requires BugAgrees(gaps, scenario, ids, event.action.bug, expected, bug)
    ensures var a := event.action;
      BugAgrees(Flagged(gaps, scenario, event), scenario, ids, a.bug, FlaggedBug(scenario, event, expected),
        ApplyFlag(bug, a.flagType, a.status, RequesteeEmail(scenario, event)))
  {
  }

  /** A new attachment on the fold's side, and on the server's. */
  function Listing(exp: Expectation, made: ExpectedAttachment): Expectation
    requires made.bug in exp.bugs
  {
    var b := exp.bugs[made.bug];
    Expectation(exp.bugs[made.bug := b.(attachments := b.attachments + [made])], exp.attachments[made.alias := made])
  }

  function Uploaded(fixture: Fixture, home: int, a: Attachment): Fixture
    requires home in fixture.bugs
  {
    var id := fixture.nextAttachment;
    var b := fixture.bugs[home];
    fixture.(attachments := fixture.attachments[id := a],
             bugs := fixture.bugs[home := b.(attachments := b.attachments + [id])],
             nextAttachment := id + 1)
  }

  lemma AttachmentAdded(gaps: Gaps, scenario: Scenario, ids: IdTable, exp: Expectation, fixture: Fixture,
                        made: ExpectedAttachment, a: Attachment)
    requires Agrees(gaps, scenario, ids, exp, fixture)
    requires made.alias !in exp.attachments && made.bug in exp.bugs
    requires AttachmentAgrees(gaps, scenario, ids, made, a)
    ensures Agrees(gaps, scenario, ids[AttachmentRef(made.alias) := fixture.nextAttachment], Listing(exp, made),
                   Uploaded(fixture, ids[BugRef(made.bug)], a))
  {
    hide BugAgrees, AttachmentAgrees, EdgesAgree, SelvesAgree, OneToOne;
    AddedLocated(ids, exp, fixture, made, a);
    hide BugsLocated, AttachmentsLocated;
    ListsExtended(gaps, scenario, ids, exp.bugs, fixture.bugs, made, fixture.nextAttachment);
    TableExtended(gaps, scenario, ids, exp.attachments, fixture.attachments, made, fixture.nextAttachment, a);
    AddedEdges(gaps, ids, ids[AttachmentRef(made.alias) := fixture.nextAttachment], exp, fixture, made, a);
  }

  lemma AddedEdges(gaps: Gaps, ids: IdTable, more: IdTable, exp: Expectation, fixture: Fixture,
                   made: ExpectedAttachment, a: Attachment)
    requires made.bug in exp.bugs && BugRef(made.bug) in ids && ids[BugRef(made.bug)] in fixture.bugs
    requires BugsLocated(ids, exp.bugs.Keys, fixture.bugs.Keys) && BugsLocated(more, exp.bugs.Keys, fixture.bugs.Keys)
    requires forall r | r in ids :: r in more && more[r] == ids[r]
    requires EdgesAgree(ids, exp.bugs, fixture.bugs) && SelvesAgree(gaps, ids, exp.bugs, fixture.bugs)
    ensures var uploaded := Uploaded(fixture, ids[BugRef(made.bug)], a);
      && EdgesAgree(more, Listing(exp, made).bugs, uploaded.bugs)
      && SelvesAgree(gaps, more, Listing(exp, made).bugs, uploaded.bugs)
  {
    hide SelvesAgree, EdgesAgree, BugsLocated;
    ListingFrame(exp, made);
    UploadedFrame(fixture, ids[BugRef(made.bug)], a);
    hide Listing, Uploaded;
    var listing, uploaded := Listing(exp, made).bugs, Uploaded(fixture, ids[BugRef(made.bug)], a).bugs;
    EdgesMore(ids, more, exp.bugs, fixture.bugs);
    EdgesUntouched(more, exp.bugs, fixture.bugs, listing, uploaded);
    SelvesRelisted(gaps, ids, more, exp.bugs, fixture.bugs, listing, uploaded);
  }

  lemma ListingFrame(exp: Expectation, made: ExpectedAttachment)
    requires made.bug in exp.bugs
    ensures var listing := Listing(exp, made).bugs;
      && listing.Keys == exp.bugs.Keys
      && forall a | a in exp.bugs ::
           listing[a].dependsOn == exp.bugs[a].dependsOn && listing[a].blocks == exp.bugs[a].blocks
  {
  }

  lemma UploadedFrame(fixture: Fixture, home: int, a: Attachment)
    requires home in fixture.bugs
    ensures var bugs := Uploaded(fixture, home, a).bugs;
      && bugs.Keys == fixture.bugs.Keys
      && forall k | k in fixture.bugs ::
           bugs[k].dependsOn == fixture.bugs[k].dependsOn && bugs[k].blocks == fixture.bugs[k].blocks
  {
  }

  lemma SelvesRelisted(gaps: Gaps, ids: IdTable, more: IdTable, expected: map<string, ExpectedBug>, bugs: map<int, Bug>,
                       expected': map<string, ExpectedBug>, bugs': map<int, Bug>)
    requires SelvesAgree(gaps, ids, expected, bugs) && forall r | r in ids :: r in more && more[r] == ids[r]
    requires expected'.Keys == expected.Keys && bugs'.Keys == bugs.Keys
    requires forall a | a in expected :: expected'[a].dependsOn == expected[a].dependsOn
    requires forall k | k in bugs :: bugs'[k].dependsOn == bugs[k].dependsOn && bugs'[k].blocks == bugs[k].blocks
    ensures SelvesAgree(gaps, more, expected', bugs')
  {
    forall a | a in expected' ensures SelfAgrees(gaps, more, expected', bugs', a) {
      assert SelfAgrees(gaps, ids, expected, bugs, a);
    }
  }

  lemma ListsExtended(gaps: Gaps, scenario: Scenario, ids: IdTable, expected: map<string, ExpectedBug>,
                      bugs: map<int, Bug>, made: ExpectedAttachment, id: int)
    requires BugsAgree(gaps, scenario, ids, expected, bugs) && OneToOne(ids)
    requires made.bug in expected && AttachmentRef(made.alias) !in ids
    ensures var home := ids[BugRef(made.bug)];
      var eb, b := expected[made.bug], bugs[home];
      BugsAgree(gaps, scenario, ids[AttachmentRef(made.alias) := id],
                expected[made.bug := eb.(attachments := eb.attachments + [made])],
                bugs[home := b.(attachments := b.attachments + [id])])
  {
    var home := ids[BugRef(made.bug)];
    var ids' := ids[AttachmentRef(made.alias) := id];
    forall n | n in expected
      ensures BugAgrees(gaps, scenario, ids', n, expected[n], bugs[ids[BugRef(n)]])
      ensures ids[BugRef(n)] == home ==> n == made.bug
    {
      BugAgreesMore(gaps, scenario, ids, ids', n, expected[n], bugs[ids[BugRef(n)]]);
      assert Apart(ids, BugRef(n), BugRef(made.bug));
    }
    var eb, b := expected[made.bug], bugs[home];
    assert ListAgrees(ids', eb.attachments + [made], b.attachments + [id]);
  }

  lemma TableExtended(gaps: Gaps, scenario: Scenario, ids: IdTable, expected: map<string, ExpectedAttachment>,
                      attachments: map<int, Attachment>, made: ExpectedAttachment, id: int, a: Attachment)
    requires AttachmentsAgree(gaps, scenario, ids, expected, attachments)
    requires made.alias !in expected && AttachmentRef(made.alias) !in ids && id !in attachments
    requires AttachmentAgrees(gaps, scenario, ids, made, a)
    ensures AttachmentsAgree(gaps, scenario, ids[AttachmentRef(made.alias) := id], expected[made.alias := made],
                             attachments[id := a])
  {
    forall x | x in expected
      ensures AttachmentAgrees(gaps, scenario, ids, expected[x], attachments[ids[AttachmentRef(x)]])
    {
    }
  }

  lemma EdgesMore(ids: IdTable, more: IdTable, expected: map<string, ExpectedBug>, bugs: map<int, Bug>)
    requires BugsLocated(ids, expected.Keys, bugs.Keys) && EdgesAgree(ids, expected, bugs)
    requires BugsLocated(more, expected.Keys, bugs.Keys)
    requires forall r | r in ids :: r in more && more[r] == ids[r]
    ensures EdgesAgree(more, expected, bugs)
  {
    forall a | a in expected.Keys ensures EndsNamed(more, expected.Keys, bugs, a) {
      assert EndsNamed(ids, expected.Keys, bugs, a);
      forall y | NamesBug(ids, expected.Keys, y) ensures NamesBug(more, expected.Keys, y) {
        var c :| c in expected.Keys && BugRef(c) in ids && ids[BugRef(c)] == y;
        assert more[BugRef(c)] == y;
      }
    }
    forall a, c | a in expected && c in expected && a != c ensures PairAgrees(more, expected, bugs, a, c) {
      assert PairAgrees(ids, expected, bugs, a, c);
    }
  }

  lemma MoreAttachments(ids: IdTable, names: set<string>, served: set<int>, alias: string, id: int)
    requires AttachmentsLocated(ids, names, served) && alias !in names
    ensures AttachmentsLocated(ids[AttachmentRef(alias) := id], names + {alias}, served + {id})
  {
  }

  lemma AddedLocated(ids: IdTable, exp: Expectation, fixture: Fixture, made: ExpectedAttachment, a: Attachment)
    requires Located(ids, exp, fixture) && made.alias !in exp.attachments && made.bug in exp.bugs
    ensures Located(ids[AttachmentRef(made.alias) := fixture.nextAttachment], Listing(exp, made),
                    Uploaded(fixture, ids[BugRef(made.bug)], a))
    ensures BugsLocated(ids[AttachmentRef(made.alias) := fixture.nextAttachment], exp.bugs.Keys, fixture.bugs.Keys)
  {
    var id := fixture.nextAttachment;
    var ids' := ids[AttachmentRef(made.alias) := id];
    OneToOneExtended(ids, AttachmentRef(made.alias), id);
    assert exp.attachments[made.alias := made].Keys == exp.attachments.Keys + {made.alias};
    assert fixture.attachments[id := a].Keys == fixture.attachments.Keys + {id};
    MoreAttachments(ids, exp.attachments.Keys, fixture.attachments.Keys, made.alias, id);
    BugsStillLocated(ids, ids', exp.bugs.Keys, fixture.bugs.Keys);
  }

  /** Only attachment entries differ, and they keep their aliases. */
  ghost predicate SameLists(bugs: map<string, ExpectedBug>, next: map<string, ExpectedBug>)
  {
    && next.Keys == bugs.Keys
    && forall n | n in bugs ::
         && next[n] == bugs[n].(attachments := next[n].attachments)
         && |next[n].attachments| == |bugs[n].attachments|
         && forall k | 0 <= k < |bugs[n].attachments| :: next[n].attachments[k].alias == bugs[n].attachments[k].alias
  }

  lemma UpdateKeepsLists(exp: Expectation, event: Event)
    requires event.action.AttachmentUpdate? && AttachmentsConsistent(exp) && Applicable(exp, event)
    ensures SameLists(exp.bugs, FoldAttachmentUpdate(exp, event).bugs)
    ensures FoldAttachmentUpdate(exp, event).attachments == exp.attachments[
      event.action.attachment := UpdatedAttachment(event, exp.attachments[event.action.attachment])]
  {
    assert Homed(exp, event.action.attachment);
    AttachmentUpdatePointwise(exp, event);
  }

  /** One attachment rewritten on both sides; its bug's list keeps its names. */
  lemma AttachmentRewritten(gaps: Gaps, gaps': Gaps, scenario: Scenario, ids: IdTable, exp: Expectation,
                            fixture: Fixture, x: string, updated: ExpectedAttachment,
                            ebugs: map<string, ExpectedBug>, a: Attachment)
    requires Agrees(gaps, scenario, ids, exp, fixture) && x in exp.attachments
    requires updated.alias == x && forall y | y in exp.attachments :: exp.attachments[y].alias == y
    requires gaps' == gaps.(renamed := gaps'.renamed) && gaps.renamed <= gaps'.renamed <= gaps.renamed + {x}
    requires AttachmentAgrees(gaps', scenario, ids, updated, a)
    requires SameLists(exp.bugs, ebugs)
    ensures Agrees(gaps', scenario, ids, Expectation(ebugs, exp.attachments[x := updated]),
                   fixture.(attachments := fixture.attachments[ids[AttachmentRef(x)] := a]))
  {
    hide BugAgrees, AttachmentAgrees, OneToOne, EdgesClosed;
    var id := ids[AttachmentRef(x)];
    assert exp.attachments[x := updated].Keys == exp.attachments.Keys;
    assert fixture.attachments[id := a].Keys == fixture.attachments.Keys;
    BugsRelisted(gaps, gaps', scenario, ids, exp.bugs, fixture.bugs, ebugs);
    TableRewritten(gaps, gaps', scenario, ids, exp.attachments, fixture.attachments, x, updated, a);
    EdgesUntouched(ids, exp.bugs, fixture.bugs, ebugs, fixture.bugs);
    SelvesUntouched(gaps, gaps', ids, exp.bugs, fixture.bugs, ebugs, fixture.bugs);
  }

  lemma BugsRelisted(gaps: Gaps, gaps': Gaps, scenario: Scenario, ids: IdTable,
                     expected: map<string, ExpectedBug>, bugs: map<int, Bug>, next: map<string, ExpectedBug>)
    requires BugsAgree(gaps, scenario, ids, expected, bugs)
    requires gaps'.mayMiss == gaps.mayMiss && gaps'.mustMiss == gaps.mustMiss && SameLists(expected, next)
    ensures BugsAgree(gaps', scenario, ids, next, bugs)
  {
    forall n | n in next ensures BugAgrees(gaps', scenario, ids, n, next[n], bugs[ids[BugRef(n)]]) {
      assert BugAgrees(gaps, scenario, ids, n, expected[n], bugs[ids[BugRef(n)]]);
      assert next[n].comments == expected[n].comments;
    }
  }

  lemma TableRewritten(gaps: Gaps, gaps': Gaps, scenario: Scenario, ids: IdTable,
                       expected: map<string, ExpectedAttachment>, attachments: map<int, Attachment>,
                       x: string, updated: ExpectedAttachment, a: Attachment)
    requires AttachmentsAgree(gaps, scenario, ids, expected, attachments) && OneToOne(ids) && x in expected
    requires updated.alias == x && forall y | y in expected :: expected[y].alias == y
    requires gaps.renamed <= gaps'.renamed <= gaps.renamed + {x}
    requires AttachmentAgrees(gaps', scenario, ids, updated, a)
    ensures AttachmentsAgree(gaps', scenario, ids, expected[x := updated],
                             attachments[ids[AttachmentRef(x)] := a])
  {
    forall y | y in expected && y != x
      ensures ids[AttachmentRef(y)] != ids[AttachmentRef(x)]
      ensures AttachmentAgrees(gaps', scenario, ids, expected[y], attachments[ids[AttachmentRef(y)]])
    {
      assert Apart(ids, AttachmentRef(y), AttachmentRef(x));
      assert AttachmentAgrees(gaps, scenario, ids, expected[y], attachments[ids[AttachmentRef(y)]]);
    }
  }

  /** The upload request, and what committing it does, spelled out. */
  lemma UploadRequest(scenario: Scenario, ids: IdTable, event: Event, fixture: Fixture, author: string)
    requires event.action.BugAttach? && Actors(event) <= scenario.emails.Keys
    requires Build(scenario, ids, event, fixture).Some?
    requires Accepts(fixture, Build(scenario, ids, event, fixture).value)
    ensures var e := event.action;
      && BugRef(e.bug) in ids && ids[BugRef(e.bug)] in fixture.bugs
      && var home, id := ids[BugRef(e.bug)], fixture.nextAttachment;
         var b := fixture.bugs[home];
         Commit(fixture, author, Build(scenario, ids, event, fixture).value) == fixture.(
           attachments := fixture.attachments[
             id := Attachment(home, author, NewAttachment(scenario, event).summary, e.contentType, e.isPrivate, false)],
           bugs := fixture.bugs[home := b.(attachments := b.attachments + [id])],
           nextAttachment := id + 1)
  {
  }

  lemma NotRenamedYet(gaps: Gaps, scenario: Scenario, ids: IdTable, exp: Expectation, fixture: Fixture, alias: string)
    requires Agrees(gaps, scenario, ids, exp, fixture) && alias !in exp.attachments
    ensures alias !in gaps.renamed
  {
  }

  lemma CommitUploadAgrees(gaps: Gaps, scenario: Scenario, ids: IdTable, exp: Expectation, event: Event,
                           fixture: Fixture)
    requires event.action.BugAttach?
    requires Agrees(gaps, scenario, ids, exp, fixture) && Ready(scenario, ids, exp, event) && Applicable(exp, event)
    requires Build(scenario, ids, event, fixture).Some?
    requires Accepts(fixture, Build(scenario, ids, event, fixture).value)
    ensures Agrees(gaps, scenario, ids[AttachmentRef(event.action.attachment) := fixture.nextAttachment],
                   FoldAttach(scenario, exp, event),
                   Commit(fixture, scenario.emails[event.actor], Build(scenario, ids, event, fixture).value))
  {
    hide Build, Commit, Accepts, Agrees, RenderAttachmentSummary;
    var e := event.action;
    var author := scenario.emails[event.actor];
    UploadRequest(scenario, ids, event, fixture, author);
    var made := NewAttachment(scenario, event);
    assert AttachmentRef(e.attachment) in Creates(event);
    var a := Attachment(ids[BugRef(e.bug)], author, made.summary, e.contentType, e.isPrivate, false);
    NotRenamedYet(gaps, scenario, ids, exp, fixture, e.attachment);
    AttachmentAdded(gaps, scenario, ids, exp, fixture, made, a);
  }

  lemma AttachmentUpdateRequest(scenario: Scenario, ids: IdTable, event: Event, fixture: Fixture, author: string)
    requires event.action.AttachmentUpdate? && Actors(event) <= scenario.emails.Keys
    requires Build(scenario, ids, event, fixture).Some?
    requires Accepts(fixture, Build(scenario, ids, event, fixture).value)
    ensures var e := event.action;
      && AttachmentRef(e.attachment) in ids && ids[AttachmentRef(e.attachment)] in fixture.attachments
      && var id := ids[AttachmentRef(e.attachment)];
         Commit(fixture, author, Build(scenario, ids, event, fixture).value) == fixture.(
           attachments := fixture.attachments[id := Rewritten(event, fixture.attachments[id])])
  {
  }

  function Rewritten(event: Event, a: Attachment): Attachment
    requires event.action.AttachmentUpdate?
  {
    a.(isObsolete := event.action.obsolete,
       summary := if event.action.newDescription.Some? then event.action.newDescription.value else a.summary)
  }

  lemma CommitAttachmentUpdateAgrees(gaps: Gaps, scenario: Scenario, ids: IdTable, exp: Expectation,
                                     event: Event, fixture: Fixture, author: string)
    requires event.action.AttachmentUpdate?
    requires Agrees(gaps, scenario, ids, exp, fixture) && Ready(scenario, ids, exp, event) && Applicable(exp, event)
    requires Build(scenario, ids, event, fixture).Some?
    requires Accepts(fixture, Build(scenario, ids, event, fixture).value)
    ensures Agrees(Redescribed(gaps, event), scenario, ids, FoldAttachmentUpdate(exp, event),
                   Commit(fixture, author, Build(scenario, ids, event, fixture).value))
  {
    AttachmentUpdateRequest(scenario, ids, event, fixture, author);
    RewriteAgrees(gaps, scenario, ids, exp, event, fixture);
  }

  lemma RewrittenAgrees(gaps: Gaps, scenario: Scenario, ids: IdTable, event: Event, current: ExpectedAttachment,
                        a: Attachment)
    requires event.action.AttachmentUpdate? && Supported(scenario, event)
    requires AttachmentAgrees(gaps, scenario, ids, current, a)
    requires event.action.attachment == current.alias
    ensures AttachmentAgrees(Redescribed(gaps, event), scenario, ids, UpdatedAttachment(event, current),
                             Rewritten(event, a))
  {
  }

  lemma RewriteAgrees(gaps: Gaps, scenario: Scenario, ids: IdTable, exp: Expectation, event: Event,
                      fixture: Fixture)
    requires event.action.AttachmentUpdate? && Supported(scenario, event)
    requires Agrees(gaps, scenario, ids, exp, fixture) && AttachmentsConsistent(exp) && Applicable(exp, event)
    ensures var id := ids[AttachmentRef(event.action.attachment)];
      Agrees(Redescribed(gaps, event), scenario, ids, FoldAttachmentUpdate(exp, event),
             fixture.(attachments := fixture.attachments[id := Rewritten(event, fixture.attachments[id])]))
  {
    var x := event.action.attachment;
    var current, before := exp.attachments[x], fixture.attachments[ids[AttachmentRef(x)]];
    assert AttachmentAgrees(gaps, scenario, ids, current, before);
    RewrittenAgrees(gaps, scenario, ids, event, current, before);
    forall y | y in exp.attachments ensures exp.attachments[y].alias == y { assert Homed(exp, y); }
    UpdateKeepsLists(exp, event);
    AttachmentRewritten(gaps, Redescribed(gaps, event), scenario, ids, exp, fixture, x,
                        UpdatedAttachment(event, current), FoldAttachmentUpdate(exp, event).bugs,
                        Rewritten(event, before));
  }

  /** The requests that touch one bug's own fields, and what committing them does. */
  lemma OneBugRequest(scenario: Scenario, ids: IdTable, event: Event, fixture: Fixture, author: string)
    requires event.action.BugComment? || event.action.BugWorktime?
          || event.action.BugCustomFieldSet? || event.action.BugFlag?
    requires Actors(event) <= scenario.emails.Keys
    requires Build(scenario, ids, event, fixture).Some?
    requires Accepts(fixture, Build(scenario, ids, event, fixture).value)
    ensures BugRef(event.action.bug) in ids && ids[BugRef(event.action.bug)] in fixture.bugs
    ensures var id := ids[BugRef(event.action.bug)];
      var b := fixture.bugs[id];
      var marker := MarkerOf(scenario, event);
      Commit(fixture, author, Build(scenario, ids, event, fixture).value) ==
        match event.action
        case BugComment(_, body, isPrivate) =>
          AppendComment(fixture, id, Comment(author, RenderMarker(body, marker), isPrivate))
        case BugWorktime(_, _, comment) =>
          AppendComment(fixture, id, Comment(author, RenderMarker(comment, marker), false))
        case BugCustomFieldSet(_, values) =>
          fixture.(bugs := fixture.bugs[id := b.(custom := b.custom + values)])
        case BugFlag(_, flagType, status, requestee) =>
          fixture.(bugs := fixture.bugs[id := ApplyFlag(b, flagType, status, RequesteeEmail(scenario, event))])
  {
  }

  lemma CommitOneBugAgrees(gaps: Gaps, scenario: Scenario, ids: IdTable, exp: Expectation, event: Event,
                           fixture: Fixture)
    requires event.action.BugComment? || event.action.BugWorktime?
          || event.action.BugCustomFieldSet? || event.action.BugFlag?
    requires Agrees(gaps, scenario, ids, exp, fixture) && Ready(scenario, ids, exp, event) && Applicable(exp, event)
    requires Build(scenario, ids, event, fixture).Some?
    requires Accepts(fixture, Build(scenario, ids, event, fixture).value)
    ensures Agrees(After(gaps, scenario, exp, event), scenario, ids, FoldStep(scenario, exp, event),
                   Commit(fixture, scenario.emails[event.actor], Build(scenario, ids, event, fixture).value))
  {
    hide Agrees, Build, Commit, Accepts, Sound;
    OneBugRequest(scenario, ids, event, fixture, scenario.emails[event.actor]);
    match event.action
    case BugComment(bug, body, isPrivate) =>
      CommentAppended(gaps, scenario, ids, exp, fixture, event, bug, body, isPrivate);
    case BugWorktime(bug, _, comment) =>
      CommentAppended(gaps, scenario, ids, exp, fixture, event, bug, comment, false);
    case BugCustomFieldSet(bug, values) => CustomAgrees(gaps, scenario, ids, exp, fixture, bug, values);
    case BugFlag(_, _, _, _) => FlagAgrees(gaps, scenario, ids, exp, event, fixture);
  }

  lemma CustomAgrees(gaps: Gaps, scenario: Scenario, ids: IdTable, exp: Expectation, fixture: Fixture,
                     bug: string, values: map<string, CustomValue>)
    requires Agrees(gaps, scenario, ids, exp, fixture) && bug in exp.bugs
    ensures var id := ids[BugRef(bug)];
      var eb, b := exp.bugs[bug], fixture.bugs[id];
      Agrees(gaps, scenario, ids, exp.(bugs := exp.bugs[bug := eb.(custom := eb.custom + values)]),
             fixture.(bugs := fixture.bugs[id := b.(custom := b.custom + values)]))
  {
    var eb, b := exp.bugs[bug], fixture.bugs[ids[BugRef(bug)]];
    assert BugAgrees(gaps, scenario, ids, bug, eb, b);
    BugReplaced(gaps, gaps, scenario, ids, exp, fixture, bug, eb.(custom := eb.custom + values),
                b.(custom := b.custom + values));
  }

  lemma FlagAgrees(gaps: Gaps, scenario: Scenario, ids: IdTable, exp: Expectation, event: Event, fixture: Fixture)
    requires event.action.BugFlag? && Actors(event) <= scenario.emails.Keys
    requires Agrees(gaps, scenario, ids, exp, fixture) && event.action.bug in exp.bugs
    ensures var a := event.action;
      var id := ids[BugRef(a.bug)];
      Agrees(Flagged(gaps, scenario, event), scenario, ids,
             exp.(bugs := exp.bugs[a.bug := FlaggedBug(scenario, event, exp.bugs[a.bug])]),
             fixture.(bugs := fixture.bugs[
               id := ApplyFlag(fixture.bugs[id], a.flagType, a.status, RequesteeEmail(scenario, event))]))
  {
    var a := event.action;
    var eb, b := exp.bugs[a.bug], fixture.bugs[ids[BugRef(a.bug)]];
    assert BugAgrees(gaps, scenario, ids, a.bug, eb, b);
    FlagApplied(gaps, scenario, ids, event, eb, b);
    BugReplaced(gaps, Flagged(gaps, scenario, event), scenario, ids, exp, fixture, a.bug,
                FlaggedBug(scenario, event, eb), ApplyFlag(b, a.flagType, a.status, RequesteeEmail(scenario, event)));
  }

  lemma ResolvedIdsAdded(ids: IdTable, event: Event, fixture: Fixture)
    ensures ids + ResolvedIds(event, fixture) ==
      match event.action
      case BugCreate(bug, _, _, _, _, _, _, _, _) => ids[BugRef(bug) := fixture.nextBug]
      case BugAttach(attachment, _, _, _, _, _) => ids[AttachmentRef(attachment) := fixture.nextAttachment]
      case _ => ids
  {
  }

  /** The committed request and the fold of the event lead to agreeing states. */
  ghost predicate Simulates(gaps: Gaps, scenario: Scenario, ids: IdTable, exp: Expectation, event: Event,
                            fixture: Fixture)
    requires Actors(event) <= scenario.emails.Keys && Applicable(exp, event)
    requires Build(scenario, ids, event, fixture).Some?
    requires Accepts(fixture, Build(scenario, ids, event, fixture).value)
  {
    Agrees(After(gaps, scenario, exp, event), scenario, ids + ResolvedIds(event, fixture),
           FoldStep(scenario, exp, event),
           Commit(fixture, scenario.emails[event.actor], Build(scenario, ids, event, fixture).value))
  }

  // One lemma an action group.

  lemma CreateSimulates(gaps: Gaps, scenario: Scenario, ids: IdTable, exp: Expectation, event: Event,
                        fixture: Fixture)
    requires event.action.BugCreate?
    requires Agrees(gaps, scenario, ids, exp, fixture) && Ready(scenario, ids, exp, event) && Applicable(exp, event)
    requires Build(scenario, ids, event, fixture).Some?
    requires Accepts(fixture, Build(scenario, ids, event, fixture).value)
    ensures Simulates(gaps, scenario, ids, exp, event, fixture)
  {
    ResolvedIdsAdded(ids, event, fixture);
    CommitCreateAgrees(gaps, scenario, ids, exp, event, fixture);
  }

  lemma UploadSimulates(gaps: Gaps, scenario: Scenario, ids: IdTable, exp: Expectation, event: Event,
                        fixture: Fixture)
    requires event.action.BugAttach?
    requires Agrees(gaps, scenario, ids, exp, fixture) && Ready(scenario, ids, exp, event) && Applicable(exp, event)
    requires Build(scenario, ids, event, fixture).Some?
    requires Accepts(fixture, Build(scenario, ids, event, fixture).value)
    ensures Simulates(gaps, scenario, ids, exp, event, fixture)
  {
    ResolvedIdsAdded(ids, event, fixture);
    CommitUploadAgrees(gaps, scenario, ids, exp, event, fixture);
  }

  lemma UpdateSimulates(gaps: Gaps, scenario: Scenario, ids: IdTable, exp: Expectation, event: Event,
                        fixture: Fixture)
    requires event.action.BugUpdate?
    requires Agrees(gaps, scenario, ids, exp, fixture) && Ready(scenario, ids, exp, event) && Applicable(exp, event)
    requires Build(scenario, ids, event, fixture).Some?
    requires Accepts(fixture, Build(scenario, ids, event, fixture).value)
    ensures Simulates(gaps, scenario, ids, exp, event, fixture)
  {
    assert event.actor in Actors(event);
    hide Agrees, Build, Commit, Accepts, Supported, FoldUpdate;
    ResolvedIdsAdded(ids, event, fixture);
    assert FoldStep(scenario, exp, event) == FoldUpdate(scenario, exp, event);
    CommitUpdateAgrees(gaps, scenario, ids, exp, event, fixture, scenario.emails[event.actor]);
  }

  lemma AttachmentUpdateSimulates(gaps: Gaps, scenario: Scenario, ids: IdTable, exp: Expectation, event: Event,
                                  fixture: Fixture)
    requires event.action.AttachmentUpdate?
    requires Agrees(gaps, scenario, ids, exp, fixture) && Ready(scenario, ids, exp, event) && Applicable(exp, event)
    requires Build(scenario, ids, event, fixture).Some?
    requires Accepts(fixture, Build(scenario, ids, event, fixture).value)
    ensures Simulates(gaps, scenario, ids, exp, event, fixture)
  {
    assert event.actor in Actors(event);
    hide Agrees, Build, Commit, Accepts, Supported, FoldAttachmentUpdate;
    ResolvedIdsAdded(ids, event, fixture);
    CommitAttachmentUpdateAgrees(gaps, scenario, ids, exp, event, fixture, scenario.emails[event.actor]);
  }

  lemma OneBugSimulates(gaps: Gaps, scenario: Scenario, ids: IdTable, exp: Expectation, event: Event,
                        fixture: Fixture)
    requires event.action.BugComment? || event.action.BugWorktime?
          || event.action.BugCustomFieldSet? || event.action.BugFlag?
    requires Agrees(gaps, scenario, ids, exp, fixture) && Ready(scenario, ids, exp, event) && Applicable(exp, event)
    requires Build(scenario, ids, event, fixture).Some?
    requires Accepts(fixture, Build(scenario, ids, event, fixture).value)
    ensures Simulates(gaps, scenario, ids, exp, event, fixture)
  {
    hide Agrees, Ready, Build, Commit, Accepts, Supported, FoldStep;
    ResolvedIdsAdded(ids, event, fixture);
    CommitOneBugAgrees(gaps, scenario, ids, exp, event, fixture);
  }

  /** One event of the simulation: the server after the committed request agrees with the fold
      after the event, under the id table the reply extends. */
  lemma CommitAgrees(gaps: Gaps, scenario: Scenario, ids: IdTable, exp: Expectation, event: Event, fixture: Fixture)
    requires Agrees(gaps, scenario, ids, exp, fixture) && Ready(scenario, ids, exp, event)
    requires Build(scenario, ids, event, fixture).Some?
    requires Accepts(fixture, Build(scenario, ids, event, fixture).value)
    ensures Applicable(exp, event)
    ensures Simulates(gaps, scenario, ids, exp, event, fixture)
  {
    ResolvableApplies(scenario, exp, event, ids.Keys);
    hide Agrees, Simulates, Ready, Applicable, Accepts;
    match event.action
    case BugCreate(_, _, _, _, _, _, _, _, _) => CreateSimulates(gaps, scenario, ids, exp, event, fixture);
    case BugAttach(_, _, _, _, _, _) => UploadSimulates(gaps, scenario, ids, exp, event, fixture);
    case BugUpdate(_, _, _, _, _, _, _, _, _) => UpdateSimulates(gaps, scenario, ids, exp, event, fixture);
    case AttachmentUpdate(_, _, _) => AttachmentUpdateSimulates(gaps, scenario, ids, exp, event, fixture);
    case _ => OneBugSimulates(gaps, scenario, ids, exp, event, fixture);
  }
}
