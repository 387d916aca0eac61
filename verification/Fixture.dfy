/** The Bugzilla server as replay sees it: bugs found by id or alias, list fields edited by
    additions and removals, dependency edges kept on both endpoints, and append-only threads. */
module Fixtures {
  import opened Prelude
  import opened Scenarios

  datatype Comment = Comment(author: string, text: string, isPrivate: bool)

  datatype Attachment = Attachment(bug: int, author: string, summary: string, contentType: string,
                                   isPrivate: bool, isObsolete: bool)

  /** `requestee` is a login. */
  datatype Flag = Flag(status: char, requestee: Option<string>)

  datatype Bug = Bug(scalars: map<string, string>, custom: map<string, CustomValue>, flags: map<string, Flag>,
                     cc: seq<string>, keywords: seq<string>, groups: seq<string>,
                     dependsOn: seq<int>, blocks: seq<int>, dupeOf: Option<int>,
                     comments: seq<Comment>, attachments: seq<int>)

  datatype Fixture = Fixture(bugs: map<int, Bug>, aliases: map<string, int>, attachments: map<int, Attachment>,
                             nextBug: int, nextAttachment: int)

  /** The additions and removals one update sends for one list field. */
  datatype Delta<T> = Delta(add: seq<T>, remove: seq<T>)

  function NoDelta<T>(): Delta<T> { Delta([], []) }

  function ApplyDelta<T(==, !new)>(list: seq<T>, delta: Delta<T>): (r: seq<T>)
    ensures forall x :: x in r <==> (x in list && x !in delta.remove) || x in delta.add
  {
    Without(list, delta.remove) + delta.add
  }

  function Include(list: seq<int>, id: int): (r: seq<int>)
    ensures forall x :: x in r <==> x in list || x == id
  {
    if id in list then list else list + [id]
  }

  /** `bug` gains and loses `depends_on` edges; each other endpoint's `blocks` follows. */
  function EditDependsOn(bugs: map<int, Bug>, bug: int, delta: Delta<int>): map<int, Bug>
  {
    map k | k in bugs ::
      var b := bugs[k];
      b.(dependsOn := if k == bug then ApplyDelta(b.dependsOn, delta) else b.dependsOn,
         blocks := if k in delta.add then Include(b.blocks, bug)
                   else if k in delta.remove then Without(b.blocks, [bug])
                   else b.blocks)
  }

  /** The mirror image: `bug` gains and loses `blocks` edges. */
  function EditBlocks(bugs: map<int, Bug>, bug: int, delta: Delta<int>): map<int, Bug>
  {
    map k | k in bugs ::
      var b := bugs[k];
      b.(blocks := if k == bug then ApplyDelta(b.blocks, delta) else b.blocks,
         dependsOn := if k in delta.add then Include(b.dependsOn, bug)
                      else if k in delta.remove then Without(b.dependsOn, [bug])
                      else b.dependsOn)
  }

  /** One mutation, as it reaches the server. */
  datatype Request =
    | CreateBug(alias: string, description: string, scalars: map<string, string>,
                cc: seq<string>, keywords: seq<string>, groups: seq<string>,
                dependsOn: seq<int>, blocks: seq<int>)
    | UpdateBug(bug: int, scalars: map<string, string>,
                ccDelta: Delta<string>, keywordsDelta: Delta<string>, groupsDelta: Delta<string>,
                dependsOnDelta: Delta<int>, blocksDelta: Delta<int>, dupe: Option<int>)
    | AddComment(bug: int, text: string, isPrivate: bool)
    | Upload(bug: int, summary: string, contentType: string, isPrivate: bool)
    | SetCustomFields(bug: int, values: map<string, CustomValue>)
    | SetFlag(bug: int, flagType: string, status: char, requestee: Option<string>)
    | UpdateAttachment(attachment: int, obsolete: bool, newSummary: Option<string>)

  /** Whether the server can commit the request: it refuses a live alias and an unknown target. */
  predicate Accepts(fixture: Fixture, request: Request)
  {
    match request
    case CreateBug(alias, _, _, _, _, _, _, _) => alias !in fixture.aliases
    case UpdateAttachment(attachment, _, _) => attachment in fixture.attachments
    case _ => request.bug in fixture.bugs
  }

  function AppendComment(fixture: Fixture, bug: int, comment: Comment): Fixture
    requires bug in fixture.bugs
  {
    var b := fixture.bugs[bug];
    fixture.(bugs := fixture.bugs[bug := b.(comments := b.comments + [comment])])
  }

  function ApplyFlag(bug: Bug, flagType: string, status: char, requestee: Option<string>): Bug
  {
    var cleared := map t | t in bug.flags && t != flagType :: bug.flags[t];
    if status == 'X' then bug.(flags := cleared)
    else if requestee.None? then bug.(flags := cleared[flagType := Flag(status, requestee)])
    else bug.(flags := cleared[flagType := Flag(status, requestee)],
              cc := if requestee.value in bug.cc then bug.cc else bug.cc + [requestee.value])
  }

  /** A bug marked as a duplicate is resolved as one. */
  function Marked(scalars: map<string, string>, dupe: Option<int>): (r: map<string, string>)
    ensures forall k | k !in {"status", "resolution"} :: k in r <==> k in scalars
    ensures forall k | k in scalars && k !in {"status", "resolution"} :: r[k] == scalars[k]
  {
    if dupe.None? then scalars else scalars["status" := "RESOLVED"]["resolution" := "DUPLICATE"]
  }

  /** The committed effect of an accepted request sent by `author`. */
  function Commit(fixture: Fixture, author: string, request: Request): Fixture
    requires Accepts(fixture, request)
  {
    match request
    case CreateBug(alias, description, scalars, cc, keywords, groups, dependsOn, blocks) =>
      var id := fixture.nextBug;
      var bug := Bug(scalars, map[], map[], cc, keywords, groups, [], [], None,
                     [Comment(author, description, false)], []);
      var placed := fixture.bugs[id := bug];
      fixture.(bugs := EditBlocks(EditDependsOn(placed, id, Delta(dependsOn, [])), id, Delta(blocks, [])),
               aliases := fixture.aliases[alias := id],
               nextBug := id + 1)
    case UpdateBug(id, scalars, cc, keywords, groups, dependsOn, blocks, dupe) =>
      var b := fixture.bugs[id];
      var edited := b.(scalars := Marked(b.scalars + scalars, dupe),
                       dupeOf := if dupe.Some? then dupe else b.dupeOf,
                       cc := ApplyDelta(b.cc, cc),
                       keywords := ApplyDelta(b.keywords, keywords),
                       groups := ApplyDelta(b.groups, groups));
      fixture.(bugs := EditBlocks(EditDependsOn(fixture.bugs[id := edited], id, dependsOn), id, blocks))
    case AddComment(bug, text, isPrivate) =>
      AppendComment(fixture, bug, Comment(author, text, isPrivate))
    case Upload(bug, summary, contentType, isPrivate) =>
      var id := fixture.nextAttachment;
      var b := fixture.bugs[bug];
      fixture.(attachments := fixture.attachments[
                 id := Attachment(bug, author, summary, contentType, isPrivate, false)],
               bugs := fixture.bugs[bug := b.(attachments := b.attachments + [id])],
               nextAttachment := id + 1)
    case SetCustomFields(bug, values) =>
      var b := fixture.bugs[bug];
      fixture.(bugs := fixture.bugs[bug := b.(custom := b.custom + values)])
    case SetFlag(bug, flagType, status, requestee) =>
      fixture.(bugs := fixture.bugs[bug := ApplyFlag(fixture.bugs[bug], flagType, status, requestee)])
    case UpdateAttachment(attachment, obsolete, summary) =>
      var a := fixture.attachments[attachment];
      fixture.(attachments := fixture.attachments[
        attachment := a.(isObsolete := obsolete,
                         summary := if summary.Some? then summary.value else a.summary)])
  }

  /** Ids in use are positive and below their counters, and edges run between bugs that exist. */
  predicate Consistent(fixture: Fixture)
  {
    && fixture.nextBug > 0 && fixture.nextAttachment > 0
    && (forall k | k in fixture.bugs :: 0 < k < fixture.nextBug)
    && (forall k | k in fixture.attachments :: 0 < k < fixture.nextAttachment)
    && (forall k, y | k in fixture.bugs && y in fixture.bugs[k].dependsOn :: y in fixture.bugs)
    && (forall k, y | k in fixture.bugs && y in fixture.bugs[k].blocks :: y in fixture.bugs)
  }

  /** None of the bugs these events create is there yet. */
  predicate AllAbsent(events: seq<Event>, fixture: Fixture)
  {
    forall i | 0 <= i < |events| && IsCreate(events[i]) :: events[i].action.serverAlias !in fixture.aliases
  }

  /** What a replay of these events starts from: nothing of theirs is on the server, whatever else is. */
  predicate Pristine(events: seq<Event>, fixture: Fixture)
  {
    Consistent(fixture) && AllAbsent(events, fixture)
  }
}
