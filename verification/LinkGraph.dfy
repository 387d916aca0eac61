/** How far each bug is from another through the declared links, and the bound a link walk needs. */
module LinkGraph {
  import opened Prelude
  import opened Scenarios
  import opened Expected

  datatype Link = Link(other: string, relation: string, direction: string)

  type Links = map<string, set<Link>>

  /** `edges.get(alias, frozenset())`. */
  function From(edges: Links, alias: string): set<Link>
  {
    if alias in edges then edges[alias] else {}
  }

  predicate Linked(edges: Links, a: string, b: string)
  {
    exists link | link in From(edges, a) :: link.other == b
  }

  // ----- Walks -----

  /** A walk through the links, from its first bug to its last. */
  ghost predicate IsWalk(edges: Links, walk: seq<string>)
  {
    walk != [] && forall i | 0 <= i < |walk| - 1 :: Linked(edges, walk[i], walk[i + 1])
  }

  /** `x` is at the end of a walk of `d` links from the root. */
  ghost predicate Reaches(edges: Links, root: string, x: string, d: nat)
  {
    exists walk :: IsWalk(edges, walk) && |walk| == d + 1 && walk[0] == root && walk[d] == x
  }

  /** The bugs other than the root that some walk reaches, each with the length of its shortest walk. */
  ghost predicate IsHops(edges: Links, root: string, hops: map<string, nat>)
  {
    && root !in hops
    && (forall x | x in hops :: Reaches(edges, root, x, hops[x]))
    && (forall x, d: nat | Reaches(edges, root, x, d) && x != root :: x in hops && hops[x] <= d)
  }

  lemma HopsAreUnique(edges: Links, root: string, a: map<string, nat>, b: map<string, nat>)
    requires IsHops(edges, root, a) && IsHops(edges, root, b)
    ensures a == b
  {
    hide Reaches;
    forall x | x in a ensures x in b && b[x] == a[x] {
      assert Reaches(edges, root, x, a[x]);
      assert Reaches(edges, root, x, b[x]);
    }
    forall x | x in b ensures x in a { assert Reaches(edges, root, x, b[x]); }
    assert a.Keys == b.Keys;
  }

  // ----- The same by layers -----

  function Others(links: set<Link>): set<string>
  {
    set link | link in links :: link.other
  }

  function Successors(edges: Links, from: set<string>): set<string>
  {
    set a, link | a in from && link in From(edges, a) :: link.other
  }

  /** The bugs within `d` links of the root. */
  function Within(edges: Links, root: string, d: nat): set<string>
  {
    if d == 0 then {root} else Within(edges, root, d - 1) + Successors(edges, Within(edges, root, d - 1))
  }

  lemma {:induction false} WithinIsReached(edges: Links, root: string, x: string, d: nat) returns (l: nat)
    requires x in Within(edges, root, d)
    ensures l <= d && Reaches(edges, root, x, l)
    decreases d
  {
    if d == 0 {
      l := 0;
      assert IsWalk(edges, [root]);
    } else if x in Within(edges, root, d - 1) {
      l := WithinIsReached(edges, root, x, d - 1);
    } else {
      var a, link :| a in Within(edges, root, d - 1) && link in From(edges, a) && link.other == x;
      var k := WithinIsReached(edges, root, a, d - 1);
      OneStepFurther(edges, root, a, x, k);
      l := k + 1;
    }
  }

  lemma OneStepFurther(edges: Links, root: string, a: string, x: string, k: nat)
    requires Reaches(edges, root, a, k) && Linked(edges, a, x)
    ensures Reaches(edges, root, x, k + 1)
  {
    var walk :| IsWalk(edges, walk) && |walk| == k + 1 && walk[0] == root && walk[k] == a;
    assert IsWalk(edges, walk + [x]);
  }

  lemma WalkPrefix(edges: Links, walk: seq<string>, n: nat)
    requires IsWalk(edges, walk) && 0 < n <= |walk|
    ensures IsWalk(edges, walk[..n])
  {
    forall i | 0 <= i < n - 1 ensures Linked(edges, walk[..n][i], walk[..n][i + 1]) {
      assert Linked(edges, walk[i], walk[i + 1]);
    }
  }

  lemma {:induction false} ReachedIsWithin(edges: Links, root: string, x: string, d: nat)
    requires Reaches(edges, root, x, d)
    ensures x in Within(edges, root, d)
    decreases d
  {
    var walk :| IsWalk(edges, walk) && |walk| == d + 1 && walk[0] == root && walk[d] == x;
    if d > 0 {
      var shorter := walk[..d];
      assert Reaches(edges, root, walk[d - 1], d - 1) by { WalkPrefix(edges, walk, d); }
      ReachedIsWithin(edges, root, walk[d - 1], d - 1);
      assert Linked(edges, walk[d - 1], walk[d]);
    }
  }

  lemma {:induction false} WithinGrows(edges: Links, root: string, d: nat, e: nat)
    requires d <= e
    ensures Within(edges, root, d) <= Within(edges, root, e)
  {
    if d < e { WithinGrows(edges, root, d, e - 1); }
  }

  /** A layer that adds nothing is the last. */
  lemma {:induction false} WithinSettles(edges: Links, root: string, d: nat, e: nat)
    requires d <= e && Within(edges, root, d + 1) == Within(edges, root, d)
    ensures Within(edges, root, e) == Within(edges, root, d)
  {
    if d < e { WithinSettles(edges, root, d, e - 1); }
  }

  /** Hops recorded through layer `d`: each bug at the layer that first holds it. */
  ghost predicate HopsThrough(edges: Links, root: string, d: nat, hops: map<string, nat>)
  {
    && hops.Keys == Within(edges, root, d) - {root}
    && forall x | x in hops :: 0 < hops[x] <= d && x in Within(edges, root, hops[x])
        && x !in Within(edges, root, hops[x] - 1)
  }

  lemma SettledHops(edges: Links, root: string, d: nat, hops: map<string, nat>)
    requires HopsThrough(edges, root, d, hops) && Within(edges, root, d + 1) == Within(edges, root, d)
    ensures IsHops(edges, root, hops)
  {
    hide Within, Reaches;
    RootWithin(edges, root);
    forall x | x in hops ensures Reaches(edges, root, x, hops[x]) {
      var l := WithinIsReached(edges, root, x, hops[x]);
      if l < hops[x] {
        ReachedIsWithin(edges, root, x, l);
        WithinGrows(edges, root, l, hops[x] - 1);
      }
    }
    forall x, l: nat | Reaches(edges, root, x, l) && x != root ensures x in hops && hops[x] <= l {
      ReachedIsWithin(edges, root, x, l);
      if l < d { WithinGrows(edges, root, l, d); } else { WithinSettles(edges, root, d, l); }
      if l < hops[x] { WithinGrows(edges, root, l, hops[x] - 1); }
    }
  }

  lemma RootWithin(edges: Links, root: string)
    ensures root in Within(edges, root, 0)
  {
  }

  // ----- The search -----

  /** Everything a walk could reach. */
  function Universe(edges: Links, root: string): set<string>
  {
    {root} + set a, link | a in edges && link in edges[a] :: link.other
  }

  lemma SuccessorsInUniverse(edges: Links, root: string, from: set<string>)
    ensures Successors(edges, from) <= Universe(edges, root)
  {
  }

  /** What was newly seen is recorded at this depth, and listed for the next frontier. */
  ghost predicate Noted(before: map<string, nat>, known: set<string>, depth: nat, hops: map<string, nat>,
                        seen: set<string>, following: seq<string>)
  {
    && Elements(following) == seen - known && hops.Keys == before.Keys + (seen - known)
    && forall x | x in hops :: if x in known then x in before && hops[x] == before[x] else hops[x] == depth
  }

  lemma NoteNext(before: map<string, nat>, known: set<string>, depth: nat, hops: map<string, nat>,
                 seen: set<string>, following: seq<string>, x: string)
    requires Noted(before, known, depth, hops, seen, following) && known <= seen && x !in seen
    ensures Noted(before, known, depth, hops[x := depth], seen + {x}, following + [x])
  {
    FollowingGrows(following, x);
  }

  /** One frontier: every bug it links to that was not seen yet, recorded at `depth`. */
  method Expand(edges: Links, frontier: seq<string>, depth: nat, before: map<string, nat>, known: set<string>)
    returns (hops: map<string, nat>, seen: set<string>, following: seq<string>)
    requires before.Keys <= known
    ensures seen == known + Successors(edges, Elements(frontier))
    ensures Elements(following) == seen - known
    ensures hops.Keys == before.Keys + (seen - known)
    ensures forall x | x in hops :: hops[x] == if x in known then before[x] else depth
  {
    hops, seen, following := before, known, [];
    for i := 0 to |frontier|
      invariant known <= seen && seen == known + Successors(edges, Elements(frontier[..i]))
      invariant Noted(before, known, depth, hops, seen, following)
    {
      ghost var entered := seen;
      var links := From(edges, frontier[i]);
      while links != {}
        invariant links <= From(edges, frontier[i])
        invariant seen == entered + Others(From(edges, frontier[i]) - links)
        invariant Noted(before, known, depth, hops, seen, following)
        decreases links
      {
        var link :| link in links;
        NextLink(From(edges, frontier[i]), links, link);
        links := links - {link};
        if link.other !in seen {
          NoteNext(before, known, depth, hops, seen, following, link.other);
          seen := seen + {link.other};
          hops := hops[link.other := depth];
          following := following + [link.other];
        }
      }
      NextInFrontier(edges, frontier, i);
    }
    assert frontier[..|frontier|] == frontier;
  }

  lemma NextLink(all: set<Link>, left: set<Link>, link: Link)
    requires left <= all && link in left
    ensures Others(all - (left - {link})) == Others(all - left) + {link.other}
  {
    assert all - (left - {link}) == (all - left) + {link};
  }

  lemma FollowingGrows(following: seq<string>, x: string)
    ensures Elements(following + [x]) == Elements(following) + {x}
  {
  }

  lemma NextInFrontier(edges: Links, frontier: seq<string>, i: nat)
    requires i < |frontier|
    ensures Successors(edges, Elements(frontier[..i + 1]))
         == Successors(edges, Elements(frontier[..i])) + Others(From(edges, frontier[i]) - {})
  {
    assert frontier[..i + 1] == frontier[..i] + [frontier[i]];
  }

  /** Only the newest layer has links to anything new. */
  lemma LayerFromFrontier(edges: Links, root: string, d: nat, frontier: seq<string>)
    requires Elements(frontier) == if d == 0 then {root} else Within(edges, root, d) - Within(edges, root, d - 1)
    ensures Within(edges, root, d + 1) == Within(edges, root, d) + Successors(edges, Elements(frontier))
  {
    var within := Within(edges, root, d);
    if d > 0 {
      var inner := Within(edges, root, d - 1);
      assert within == inner + Successors(edges, inner);
      assert Elements(frontier) + inner == within;
      SuccessorsSplit(edges, Elements(frontier), inner);
    }
  }

  lemma SuccessorsSplit(edges: Links, a: set<string>, b: set<string>)
    ensures Successors(edges, a + b) == Successors(edges, a) + Successors(edges, b)
  {
  }

  lemma NextHops(edges: Links, root: string, d: nat, hops: map<string, nat>, next: map<string, nat>)
    requires HopsThrough(edges, root, d, hops)
    requires Within(edges, root, d) <= Within(edges, root, d + 1) && root in Within(edges, root, d)
    requires next.Keys == hops.Keys + (Within(edges, root, d + 1) - Within(edges, root, d))
    requires forall x | x in next :: next[x] == if x in Within(edges, root, d) then hops[x] else d + 1
    ensures HopsThrough(edges, root, d + 1, next)
  {
    hide Within;
  }

  lemma EndsSettled(edges: Links, root: string, d: nat)
    requires d > 0 && Within(edges, root, d) - Within(edges, root, d - 1) == {}
    ensures Within(edges, root, d + 1) == Within(edges, root, d)
  {
    assert Within(edges, root, d) == Within(edges, root, d - 1);
  }

  lemma Shrinks(universe: set<string>, before: set<string>, after: set<string>, following: seq<string>)
    requires before <= after <= universe && Elements(following) == after - before
    ensures |universe - after| < |universe - before| || (following == [] && after == before)
  {
    if following == [] {
      assert after - before == {};
    } else {
      assert following[0] in after - before;
      assert universe - before == (universe - after) + (after - before);
    }
  }

  /** `reachable`: breadth first, to exactly the reachable bugs and their shortest distances. */
  method Reachable(edges: Links, root: string) returns (hops: map<string, nat>)
    ensures IsHops(edges, root, hops)
  {
    hide Within, Universe, Successors, HopsThrough, IsHops, Elements;
    hops := map[];
    var frontier, seen, depth := [root], {root}, 0;
    ghost var universe := Universe(edges, root);
    StartSearch(edges, root);
    while frontier != []
      invariant seen == Within(edges, root, depth) && HopsThrough(edges, root, depth, hops)
      invariant Elements(frontier) == if depth == 0 then {root} else seen - Within(edges, root, depth - 1)
      invariant depth == 0 ==> frontier != []
      invariant root in seen && seen <= universe
      decreases |universe - seen|, |frontier|
    {
      depth := depth + 1;
      LayerFromFrontier(edges, root, depth - 1, frontier);
      SuccessorsInUniverse(edges, root, Elements(frontier));
      KnownHops(edges, root, depth - 1, hops);
      ghost var before, earlier := seen, hops;
      hops, seen, frontier := Expand(edges, frontier, depth, hops, seen);
      Shrinks(universe, before, seen, frontier);
      NextHops(edges, root, depth - 1, earlier, hops);
    }
    EndsSettled(edges, root, depth);
    SettledHops(edges, root, depth, hops);
  }

  lemma StartSearch(edges: Links, root: string)
    ensures Within(edges, root, 0) == {root} && root in Universe(edges, root)
    ensures HopsThrough(edges, root, 0, map[]) && Elements([root]) == {root} && Elements<string>([]) == {}
  {
  }

  lemma KnownHops(edges: Links, root: string, d: nat, hops: map<string, nat>)
    requires HopsThrough(edges, root, d, hops)
    ensures hops.Keys <= Within(edges, root, d)
  {
  }

  // ----- The bound -----

  const MAX_NODES := 1000
  const MAX_DEPTH := 10

  ghost predicate WithinBound(edges: Links, root: string)
  {
    exists hops :: IsHops(edges, root, hops) && |hops| <= MAX_NODES && forall x | x in hops :: hops[x] <= MAX_DEPTH
  }

  /** `check_link_bound`: accepts exactly when every bug reaches few enough others, near enough. */
  method CheckLinkBound(edges: Links) returns (accepted: bool)
    ensures accepted <==> forall alias | alias in edges :: WithinBound(edges, alias)
  {
    var rest := edges.Keys;
    while rest != {}
      invariant rest <= edges.Keys
      invariant forall alias | alias in edges && alias !in rest :: WithinBound(edges, alias)
      decreases rest
    {
      hide IsHops;
      var alias :| alias in rest;
      var hops := Reachable(edges, alias);
      Bound(edges, alias, hops);
      if |hops| > MAX_NODES {
        return false;
      }
      var deep := exists x | x in hops :: hops[x] > MAX_DEPTH;
      if deep {
        return false;
      }
      rest := rest - {alias};
    }
    return true;
  }

  lemma Bound(edges: Links, root: string, hops: map<string, nat>)
    requires IsHops(edges, root, hops)
    ensures WithinBound(edges, root) <==> |hops| <= MAX_NODES && forall x | x in hops :: hops[x] <= MAX_DEPTH
  {
    hide IsHops;
    if WithinBound(edges, root) {
      var other :| IsHops(edges, root, other) && |other| <= MAX_NODES && forall x | x in other :: other[x] <= MAX_DEPTH;
      HopsAreUnique(edges, root, hops, other);
    }
  }

  // ----- The declared graph -----

  /** `link_edges`. */
  function LinkEdges(bugs: map<string, ExpectedBug>): Links
  {
    map a | a in bugs ::
      (set c | c in bugs[a].dependsOn :: Link(c, "depends_on", "out"))
      + (set c | c in bugs[a].blocks :: Link(c, "blocks", "in"))
      + if bugs[a].duplicateOf.Some? then {Link(bugs[a].duplicateOf.value, "dupe_of", "out")} else {}
  }

  /** A declared duplicate is of a bug that exists. */
  lemma {:induction false} FoldedDuplicates(scenario: Scenario, k: nat, a: string)
    requires k <= |scenario.events| && WellFormed(scenario.emails, scenario.events)
    requires a in Fold(scenario, k).bugs && Fold(scenario, k).bugs[a].duplicateOf.Some?
    ensures Fold(scenario, k).bugs[a].duplicateOf.value in Fold(scenario, k).bugs
  {
    hide Fold, FoldStep, Sound, Creates;
    FoldsFromNothing(scenario);
    FoldNext(scenario, k - 1);
    FoldSound(scenario, k - 1);
    var exp, event := Fold(scenario, k - 1), scenario.events[k - 1];
    StepDuplicates(scenario, exp, event, CreatedBefore(scenario.events, k - 1), a);
    if a in exp.bugs && exp.bugs[a].duplicateOf.Some? { FoldedDuplicates(scenario, k - 1, a); }
  }

  /** A step keeps every bug, and the only new duplicate is the one it declares. */
  lemma StepDuplicates(scenario: Scenario, exp: Expectation, event: Event, created: set<Ref>, a: string)
    requires Actors(event) <= scenario.emails.Keys && Applicable(exp, event)
    requires Sound(exp, created) && Uses(event) <= created
    requires a in FoldStep(scenario, exp, event).bugs
    ensures exp.bugs.Keys <= FoldStep(scenario, exp, event).bugs.Keys
    ensures var now := FoldStep(scenario, exp, event).bugs[a].duplicateOf;
      now.Some? ==> now.value in exp.bugs || (a in exp.bugs && now == exp.bugs[a].duplicateOf)
  {
    hide OptionalLinks, LinkDependsOn, LinkBlocks, EdgesConsistent, AttachmentsConsistent;
    match event.action
    case BugCreate(bug, _, _, _, _, _, _, dependsOn, blocks) =>
      OptionalLinksFrame(exp.bugs[bug := NewBug(scenario, event)], bug, Some(dependsOn), Some(blocks));
    case BugUpdate(bug, _, _, _, _, _, dependsOn, blocks, duplicateOf) =>
      OptionalLinksFrame(exp.bugs[bug := UpdatedNames(scenario, event, exp.bugs[bug])], bug, dependsOn, blocks);
      if duplicateOf.Some? { assert BugRef(duplicateOf.value) in Uses(event); }
    case _ =>
  }

  /** In a folded scenario every dependency link runs both ways, and leads to a bug of the scenario. */
  lemma FoldedLinksAreMutual(scenario: Scenario, k: nat, a: string, link: Link)
    requires k <= |scenario.events| && WellFormed(scenario.emails, scenario.events)
    requires a in Fold(scenario, k).bugs && link in From(LinkEdges(Fold(scenario, k).bugs), a)
    ensures link.other in Fold(scenario, k).bugs
    ensures link.relation != "dupe_of" ==> Linked(LinkEdges(Fold(scenario, k).bugs), link.other, a)
  {
    FoldSound(scenario, k);
    if link.relation == "dupe_of" { FoldedDuplicates(scenario, k, a); }
    hide Fold;
    LinksAreMutual(Fold(scenario, k).bugs, a, link);
  }

  lemma LinksAreMutual(bugs: map<string, ExpectedBug>, a: string, link: Link)
    requires EdgesConsistent(bugs) && a in bugs && link in From(LinkEdges(bugs), a)
    ensures link.relation == "depends_on" ==> link.other in bugs && Linked(LinkEdges(bugs), link.other, a)
    ensures link.relation == "blocks" ==> link.other in bugs && Linked(LinkEdges(bugs), link.other, a)
    ensures || link.relation in {"depends_on", "blocks"}
            || (link.relation == "dupe_of" && bugs[a].duplicateOf == Some(link.other))
  {
    if link.relation == "depends_on" {
      assert Link(a, "blocks", "in") in From(LinkEdges(bugs), link.other);
    } else if link.relation == "blocks" {
      assert Link(a, "depends_on", "out") in From(LinkEdges(bugs), link.other);
    }
  }

  /** Every bug declared a duplicate is linked back by the bug it duplicates. */
  ghost predicate DuplicatesAnswered(bugs: map<string, ExpectedBug>)
  {
    forall a | a in bugs && bugs[a].duplicateOf.Some? :: Linked(LinkEdges(bugs), bugs[a].duplicateOf.value, a)
  }

  lemma LinkAnswered(scenario: Scenario, k: nat, a: string, b: string)
    requires k <= |scenario.events| && WellFormed(scenario.emails, scenario.events)
    requires DuplicatesAnswered(Fold(scenario, k).bugs)
    requires a in Fold(scenario, k).bugs && Linked(LinkEdges(Fold(scenario, k).bugs), a, b)
    ensures b in Fold(scenario, k).bugs && Linked(LinkEdges(Fold(scenario, k).bugs), b, a)
  {
    FoldSound(scenario, k);
    hide Fold;
    var link :| link in From(LinkEdges(Fold(scenario, k).bugs), a) && link.other == b;
    FoldedLinksAreMutual(scenario, k, a, link);
    LinksAreMutual(Fold(scenario, k).bugs, a, link);
  }

  lemma {:induction false} WalkReversed(scenario: Scenario, k: nat, walk: seq<string>) returns (back: seq<string>)
    requires k <= |scenario.events| && WellFormed(scenario.emails, scenario.events)
    requires DuplicatesAnswered(Fold(scenario, k).bugs)
    requires IsWalk(LinkEdges(Fold(scenario, k).bugs), walk) && walk[0] in Fold(scenario, k).bugs
    ensures IsWalk(LinkEdges(Fold(scenario, k).bugs), back) && |back| == |walk|
    ensures back[0] == walk[|walk| - 1] && back[|back| - 1] == walk[0] && back[0] in Fold(scenario, k).bugs
    decreases |walk|
  {
    if |walk| == 1 {
      back := walk;
    } else {
      hide Fold, LinkEdges, Linked, DuplicatesAnswered;
      var shorter := walk[..|walk| - 1];
      WalkPrefix(LinkEdges(Fold(scenario, k).bugs), walk, |walk| - 1);
      var rest := WalkReversed(scenario, k, shorter);
      assert Linked(LinkEdges(Fold(scenario, k).bugs), walk[|walk| - 2], walk[|walk| - 2 + 1]);
      LinkAnswered(scenario, k, walk[|walk| - 2], walk[|walk| - 1]);
      back := [walk[|walk| - 1]] + rest;
      assert forall i | 0 < i < |back| :: back[i] == rest[i - 1];
    }
  }

  /** The shortest walk from `a` to `b` has this many links. */
  ghost predicate Distance(edges: Links, a: string, b: string, d: nat)
  {
    Reaches(edges, a, b, d) && forall e: nat | e < d :: !Reaches(edges, a, b, e)
  }

  /** Any two bugs are as far from each other one way as the other. */
  ghost predicate DistancesSymmetric(bugs: map<string, ExpectedBug>)
  {
    forall a, b, d: nat | a in bugs && Distance(LinkEdges(bugs), a, b, d) :: Distance(LinkEdges(bugs), b, a, d)
  }

  lemma ReachesBack(scenario: Scenario, k: nat, a: string, b: string, d: nat)
    requires k <= |scenario.events| && WellFormed(scenario.emails, scenario.events)
    requires DuplicatesAnswered(Fold(scenario, k).bugs)
    requires a in Fold(scenario, k).bugs && Reaches(LinkEdges(Fold(scenario, k).bugs), a, b, d)
    ensures b in Fold(scenario, k).bugs && Reaches(LinkEdges(Fold(scenario, k).bugs), b, a, d)
  {
    hide Fold, LinkEdges, DuplicatesAnswered;
    var edges := LinkEdges(Fold(scenario, k).bugs);
    var walk :| IsWalk(edges, walk) && |walk| == d + 1 && walk[0] == a && walk[d] == b;
    var back := WalkReversed(scenario, k, walk);
  }

  /** A link is a walk of one step. */
  lemma LinkIsDistance(edges: Links, a: string, b: string)
    requires a != b
    ensures Linked(edges, a, b) <==> Distance(edges, a, b, 1)
  {
    if Linked(edges, a, b) { assert IsWalk(edges, [a, b]) && [a, b][1] == b; }
    if Distance(edges, a, b, 1) {
      var walk :| IsWalk(edges, walk) && |walk| == 2 && walk[0] == a && walk[1] == b;
      FirstStep(edges, walk);
    }
  }

  /** Distances in a folded scenario are symmetric exactly when every duplicate link is answered by some
      link back. */
  lemma DistancesAreSymmetric(scenario: Scenario, k: nat)
    requires k <= |scenario.events| && WellFormed(scenario.emails, scenario.events)
    ensures DistancesSymmetric(Fold(scenario, k).bugs) <==> DuplicatesAnswered(Fold(scenario, k).bugs)
  {
    hide Fold, LinkEdges, Reaches, Linked;
    var bugs := Fold(scenario, k).bugs;
    if DuplicatesAnswered(bugs) {
      forall a, b, d: nat | a in bugs && Distance(LinkEdges(bugs), a, b, d) ensures Distance(LinkEdges(bugs), b, a, d) {
        ReachesBack(scenario, k, a, b, d);
        forall e: nat | e < d ensures !Reaches(LinkEdges(bugs), b, a, e) {
          if Reaches(LinkEdges(bugs), b, a, e) { ReachesBack(scenario, k, b, a, e); }
        }
      }
    }
    if DistancesSymmetric(bugs) {
      forall a | a in bugs && bugs[a].duplicateOf.Some? ensures Linked(LinkEdges(bugs), bugs[a].duplicateOf.value, a) {
        var b := bugs[a].duplicateOf.value;
        DuplicateLinks(bugs, a);
        if a != b {
          LinkIsDistance(LinkEdges(bugs), a, b);
          LinkIsDistance(LinkEdges(bugs), b, a);
        }
      }
    }
  }

  lemma DuplicateLinks(bugs: map<string, ExpectedBug>, a: string)
    requires a in bugs && bugs[a].duplicateOf.Some?
    ensures Linked(LinkEdges(bugs), a, bugs[a].duplicateOf.value)
  {
    assert Link(bugs[a].duplicateOf.value, "dupe_of", "out") in From(LinkEdges(bugs), a);
  }

  // ----- A scenario whose distances are not symmetric -----

  function Created(name: string, alias: string): Event
  {
    Event("make-" + name, "ada", BugCreate(name, alias, "text", map[], [], [], [], [], []))
  }

  const DUPLICATE := Scenario("demo", "digest", map["ada" := "ada@example.org"],
    [Created("a", "alias-a"), Created("b", "alias-b"),
     Event("mark", "ada", BugUpdate("b", map[], false, None, None, None, None, None, Some("a")))])

  lemma DuplicateLoads()
    ensures Replayable(DUPLICATE)
  {
    hide EventResolves, Supported;
    DuplicateResolves();
    assert AllSupported(DUPLICATE) by { DuplicateSupported(); }
  }

  lemma DuplicateSupported()
    ensures forall i | 0 <= i < 3 :: Supported(DUPLICATE, DUPLICATE.events[i])
  {
    assert Supported(DUPLICATE, DUPLICATE.events[0]) && Supported(DUPLICATE, DUPLICATE.events[1]);
  }

  lemma DuplicateResolves()
    ensures forall i | 0 <= i < 3 :: EventResolves(DUPLICATE.emails, DUPLICATE.events, i)
    ensures DUPLICATE.events[0].name != DUPLICATE.events[1].name
  {
    var events := DUPLICATE.events;
    assert CreatedBefore(events, 1) == {BugRef("a")};
    assert CreatedBefore(events, 2) == {BugRef("a"), BugRef("b")};
    assert events[0].name == "make-a" && events[1].name == "make-b";
    assert events[0].name[5] != events[1].name[5];
    hide CreatedBefore;
  }

  /** A bug declared to be a duplicate is one link from its original, and its original reaches nothing. */
  lemma DuplicateIsOneWay()
    ensures Replayable(DUPLICATE) && "a" in Fold(DUPLICATE, 3).bugs && "b" in Fold(DUPLICATE, 3).bugs
    ensures Distance(LinkEdges(Fold(DUPLICATE, 3).bugs), "b", "a", 1)
    ensures forall d: nat :: !Reaches(LinkEdges(Fold(DUPLICATE, 3).bugs), "a", "b", d)
  {
    hide Replayable, Fold, Reaches, Linked;
    DuplicateLoads();
    DuplicateFolded();
    var bugs := Fold(DUPLICATE, 3).bugs;
    DuplicateLinks(bugs, "b");
    LinkIsDistance(LinkEdges(bugs), "b", "a");
    forall d: nat ensures !Reaches(LinkEdges(bugs), "a", "b", d) { NoLinksNoWalk(LinkEdges(bugs), "a", "b", d); }
  }

  lemma NoLinksNoWalk(edges: Links, a: string, b: string, d: nat)
    requires From(edges, a) == {} && a != b
    ensures !Reaches(edges, a, b, d)
  {
    if Reaches(edges, a, b, d) {
      var walk :| IsWalk(edges, walk) && |walk| == d + 1 && walk[0] == a && walk[d] == b;
      FirstStep(edges, walk);
    }
  }

  lemma FirstStep(edges: Links, walk: seq<string>)
    requires IsWalk(edges, walk) && |walk| > 1
    ensures Linked(edges, walk[0], walk[1])
  {
    assert Linked(edges, walk[0], walk[0 + 1]);
  }

  lemma DuplicateFolded()
    requires Replayable(DUPLICATE)
    ensures var bugs := Fold(DUPLICATE, 3).bugs;
      && "a" in bugs && "b" in bugs && bugs["b"].duplicateOf == Some("a")
      && From(LinkEdges(bugs), "a") == {}
  {
    hide Fold, Replayable, OptionalLinks;
    DuplicateLoadsWell();
    FoldNext(DUPLICATE, 0);
    FoldNext(DUPLICATE, 1);
    FoldNext(DUPLICATE, 2);
    assert Fold(DUPLICATE, 0) == Nothing by { FoldsFromNothing(DUPLICATE); }
    BareCreate(DUPLICATE, Fold(DUPLICATE, 0), DUPLICATE.events[0]);
    BareCreate(DUPLICATE, Fold(DUPLICATE, 1), DUPLICATE.events[1]);
    var marked := UpdatedNames(DUPLICATE, DUPLICATE.events[2], Fold(DUPLICATE, 2).bugs["b"]);
    NoLinksDeclared(Fold(DUPLICATE, 2).bugs["b" := marked], "b");
  }

  lemma DuplicateLoadsWell()
    requires Replayable(DUPLICATE)
    ensures WellFormed(DUPLICATE.emails, DUPLICATE.events)
  {
  }

  lemma FoldsFromNothing(scenario: Scenario)
    ensures Fold(scenario, 0) == Nothing
  {
  }

  lemma NoLinksDeclared(bugs: map<string, ExpectedBug>, bug: string)
    requires bug in bugs
    ensures OptionalLinks(bugs, bug, None, None) == bugs
  {
  }

  /** A bug created without edges. */
  lemma BareCreate(scenario: Scenario, exp: Expectation, event: Event)
    requires event.action.BugCreate? && Actors(event) <= scenario.emails.Keys
    requires event.action.dependsOn == [] && event.action.blocks == []
    ensures FoldStep(scenario, exp, event).bugs == exp.bugs[event.action.bug := NewBug(scenario, event)]
  {
    var bug := event.action.bug;
    var placed := exp.bugs[bug := NewBug(scenario, event)];
    assert Elements<string>([]) == {};
    assert LinkDependsOn(placed, bug, {}) == placed;
    assert LinkBlocks(placed, bug, {}) == placed;
  }
}
