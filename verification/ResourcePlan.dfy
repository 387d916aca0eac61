/** The provisioning plan: declared resources, ordered so that every dependency comes first and,
    within that, by declaration. */
module ResourcePlan {
  import opened Prelude

  datatype Kind = Product | Keyword | CustomField | Group | Version | Milestone | Actor | Component | FlagType

  datatype Identity = Identity(kind: Kind, name: string)

  /** `owner` is a component's product, which is also among its dependencies. */
  datatype Resource = Resource(identity: Identity, owner: Option<Identity>, dependencies: seq<Identity>)

  /** The kinds `_parse_resource` lets a resource depend on. */
  function DependencyKinds(kind: Kind): set<Kind>
  {
    match kind
    case Group => {Product}
    case Actor => {Group}
    case Component => {Product, Actor}
    case Version => {Product}
    case Milestone => {Product}
    case FlagType => {Product, Component}
    case _ => {}
  }

  predicate Parsed(resources: seq<Resource>)
  {
    forall r, d | r in resources && d in r.dependencies :: d.kind in DependencyKinds(r.identity.kind)
  }

  predicate Unique(resources: seq<Resource>)
  {
    forall i, j | 0 <= i < j < |resources| :: resources[i].identity != resources[j].identity
  }

  predicate Names(resources: seq<Resource>, identity: Identity)
  {
    exists r | r in resources :: r.identity == identity
  }

  predicate Resolved(resources: seq<Resource>)
  {
    forall r | r in resources :: Named(resources, r)
  }

  /** Every dependency of the resource is declared. */
  predicate Named(resources: seq<Resource>, r: Resource)
  {
    forall d | d in r.dependencies :: Names(resources, d)
  }

  function Products(r: Resource): set<Identity>
  {
    set d | d in r.dependencies && d.kind.Product?
  }

  /** A flag type that names products names only components of theirs. */
  predicate InScope(resources: seq<Resource>, r: Resource)
  {
    r.identity.kind.FlagType? && Products(r) != {} ==>
      forall c | c in resources && c.identity in r.dependencies && c.identity.kind.Component? ::
        c.owner.Some? && c.owner.value in Products(r)
  }

  /** Declaration `k` is the first with a problem, and this is what is reported of it. */
  ghost predicate FirstProblem(resources: seq<Resource>, k: nat, error: PlanError)
  {
    && k < |resources|
    && (forall l | 0 <= l < k :: Named(resources, resources[l]) && InScope(resources, resources[l]))
    && match error
       case MissingDependency => !Named(resources, resources[k])
       case OutsideScope => Named(resources, resources[k]) && !InScope(resources, resources[k])
       case _ => false
  }

  /** The declaration indexes resource `i` depends on. */
  function Needs(resources: seq<Resource>, i: nat): set<nat>
    requires i < |resources|
  {
    set j: nat | j < |resources| && resources[j].identity in resources[i].dependencies
  }

  // ----- Orders -----

  /** Each resource comes after everything it depends on. */
  ghost predicate InOrder(resources: seq<Resource>, order: seq<nat>)
  {
    && (forall k | 0 <= k < |order| :: order[k] < |resources|)
    && (forall k | 0 <= k < |order| :: Supplied(resources, order, k))
  }

  ghost predicate Supplied(resources: seq<Resource>, order: seq<nat>, k: nat)
    requires k < |order| && order[k] < |resources|
  {
    Needs(resources, order[k]) <= Elements(order[..k])
  }

  /** A complete order: every declaration once, dependencies first. */
  ghost predicate IsPlan(resources: seq<Resource>, order: seq<nat>)
  {
    && Distinct(order) && (forall i: nat :: i in order <==> i < |resources|)
    && InOrder(resources, order)
  }

  /** Before `b` in declaration order, at the first place they differ. */
  ghost predicate Precedes(a: seq<nat>, b: seq<nat>)
  {
    exists k | 0 <= k < |a| && k < |b| :: a[..k] == b[..k] && a[k] < b[k]
  }

  /** Declarations not yet planned whose dependencies all are. */
  ghost function Ready(resources: seq<Resource>, planned: set<nat>): set<nat>
  {
    set i: nat | i < |resources| && i !in planned && Needs(resources, i) <= planned
  }

  /** Each choice was the earliest declaration ready at the time. */
  ghost predicate Greedy(resources: seq<Resource>, order: seq<nat>)
  {
    forall k | 0 <= k < |order| :: EarliestReady(resources, order, k)
  }

  ghost predicate EarliestReady(resources: seq<Resource>, order: seq<nat>, k: nat)
    requires k < |order|
  {
    && order[k] in Ready(resources, Elements(order[..k]))
    && forall i | i in Ready(resources, Elements(order[..k])) :: order[k] <= i
  }

  /** A complete greedy order comes before every other plan. */
  lemma {:induction false} GreedyIsLeast(resources: seq<Resource>, order: seq<nat>, other: seq<nat>, k: nat)
    requires IsPlan(resources, order) && Greedy(resources, order) && IsPlan(resources, other)
    requires k <= |order| && k <= |other| && order[..k] == other[..k]
    ensures order == other || Precedes(order, other)
    decreases |order| - k
  {
    SameLength(resources, order, other);
    if k == |order| {
      assert order == order[..k] && other == other[..k];
    } else {
      assert EarliestReady(resources, order, k);
      assert Supplied(resources, other, k);
      assert other[k] !in other[..k];
      assert other[k] in Ready(resources, Elements(order[..k]));
      if order[k] == other[k] {
        assert order[..k + 1] == order[..k] + [order[k]] && other[..k + 1] == other[..k] + [other[k]];
        GreedyIsLeast(resources, order, other, k + 1);
      }
    }
  }

  lemma SameLength(resources: seq<Resource>, a: seq<nat>, b: seq<nat>)
    requires IsPlan(resources, a) && IsPlan(resources, b)
    ensures |a| == |b|
  {
    DistinctSize(a);
    DistinctSize(b);
    assert Elements(a) == Elements(b);
  }

  /** With something unplanned and nothing ready, no plan exists. */
  lemma Stuck(resources: seq<Resource>, planned: set<nat>, other: seq<nat>)
    requires Ready(resources, planned) == {}
    requires exists i: nat :: i < |resources| && i !in planned
    ensures !IsPlan(resources, other)
  {
    if IsPlan(resources, other) {
      var k := FirstUnplanned(resources, planned, other);
    }
  }

  lemma FirstUnplanned(resources: seq<Resource>, planned: set<nat>, other: seq<nat>) returns (k: nat)
    requires IsPlan(resources, other) && exists i: nat :: i < |resources| && i !in planned
    ensures k < |other| && other[k] in Ready(resources, planned)
  {
    var i: nat :| i < |resources| && i !in planned;
    assert i in other;
    k := 0;
    while other[k] in planned
      invariant k < |other| && Elements(other[..k]) <= planned
      invariant exists j | k <= j < |other| :: other[j] == i
      decreases |other| - k
    {
      assert other[..k + 1] == other[..k] + [other[k]];
      k := k + 1;
    }
    assert Supplied(resources, other, k);
  }

  // ----- Dependencies go down a ranking of kinds -----

  function Rank(kind: Kind): nat
  {
    match kind
    case Product => 0
    case Keyword => 0
    case CustomField => 0
    case Group => 1
    case Version => 1
    case Milestone => 1
    case Actor => 2
    case Component => 3
    case FlagType => 4
  }

  lemma NeedsRankLower(resources: seq<Resource>, i: nat, j: nat)
    requires Parsed(resources) && i < |resources| && j in Needs(resources, i)
    ensures Rank(resources[j].identity.kind) < Rank(resources[i].identity.kind)
  {
    assert resources[i] in resources;
  }

  /** So while anything is unplanned, something is ready. */
  lemma {:induction false} SomethingReady(resources: seq<Resource>, planned: set<nat>, i: nat)
    requires Parsed(resources) && i < |resources| && i !in planned
    ensures Ready(resources, planned) != {}
    decreases Rank(resources[i].identity.kind)
  {
    if Needs(resources, i) <= planned {
      assert i in Ready(resources, planned);
    } else {
      var j :| j in Needs(resources, i) && j !in planned;
      NeedsRankLower(resources, i, j);
      SomethingReady(resources, planned, j);
    }
  }

  // ----- The algorithm -----

  datatype PlanError = DuplicateIdentity | MissingDependency | OutsideScope | DependencyCycle

  function Picked(resources: seq<Resource>, order: seq<nat>): (r: seq<Resource>)
    requires forall k | 0 <= k < |order| :: order[k] < |resources|
    ensures |r| == |order| && forall k | 0 <= k < |r| :: r[k] == resources[order[k]]
  {
    seq(|order|, k requires 0 <= k < |order| => resources[order[k]])
  }

  /** Indexes declarations by identity; `None` when one repeats. */
  method IndexResources(resources: seq<Resource>) returns (indexes: Option<map<Identity, nat>>)
    ensures indexes.Some? <==> Unique(resources)
    ensures indexes.Some? ==> Indexed(resources, indexes.value)
  {
    var found: map<Identity, nat> := map[];
    for i := 0 to |resources|
      invariant forall d | d in found :: found[d] < i && resources[found[d]].identity == d
      invariant forall k | 0 <= k < i :: resources[k].identity in found
      invariant forall k, l | 0 <= k < l < i :: resources[k].identity != resources[l].identity
    {
      var identity := resources[i].identity;
      if identity in found {
        return None;
      }
      found := found[identity := i];
    }
    return Some(found);
  }

  ghost predicate Indexed(resources: seq<Resource>, indexes: map<Identity, nat>)
  {
    && (forall d | d in indexes :: indexes[d] < |resources| && resources[indexes[d]].identity == d)
    && (forall k | 0 <= k < |resources| :: resources[k].identity in indexes && indexes[resources[k].identity] == k)
  }

  /** Whether one flag type's components belong to its products. */
  method CheckScope(resources: seq<Resource>, indexes: map<Identity, nat>, r: Resource) returns (fits: bool)
    requires Indexed(resources, indexes) && Named(resources, r)
    ensures fits <==> InScope(resources, r)
  {
    var products := Products(r);
    if !r.identity.kind.FlagType? || products == {} {
      return true;
    }
    for j := 0 to |r.dependencies|
      invariant forall l | 0 <= l < j && r.dependencies[l].kind.Component? ::
        r.dependencies[l] in indexes && resources[indexes[r.dependencies[l]]].owner.Some?
        && resources[indexes[r.dependencies[l]]].owner.value in products
    {
      var d := r.dependencies[j];
      if d.kind.Component? {
        NamedIsIndexed(resources, indexes, r, d);
        var owner := resources[indexes[d]].owner;
        if owner.None? || owner.value !in products {
          assert resources[indexes[d]] in resources;
          return false;
        }
      }
    }
    return true;
  }

  lemma NamedIsIndexed(resources: seq<Resource>, indexes: map<Identity, nat>, r: Resource, d: Identity)
    requires Indexed(resources, indexes) && Named(resources, r) && d in r.dependencies
    ensures d in indexes
  {
    assert Names(resources, d);
  }

  /** The second pass: each declaration in turn, its dependencies before its scope. */
  method CheckDependencies(resources: seq<Resource>, indexes: map<Identity, nat>)
    returns (problem: Option<PlanError>, ghost at: nat)
    requires Indexed(resources, indexes)
    ensures problem.Some? ==> FirstProblem(resources, at, problem.value)
    ensures problem.None? ==> forall k | 0 <= k < |resources| ::
      Named(resources, resources[k]) && InScope(resources, resources[k])
  {
    hide InScope;
    at := 0;
    for i := 0 to |resources|
      invariant forall l | 0 <= l < i :: Named(resources, resources[l]) && InScope(resources, resources[l])
    {
      at := i;
      for j := 0 to |resources[i].dependencies|
        invariant forall l | 0 <= l < j :: resources[i].dependencies[l] in indexes
      {
        var d := resources[i].dependencies[j];
        if d !in indexes {
          assert forall r | r in resources :: r.identity in indexes;
          assert !Names(resources, d);
          return Some(MissingDependency), i;
        }
      }
      forall d | d in resources[i].dependencies ensures Names(resources, d) {
        assert resources[indexes[d]] in resources;
      }
      var fits := CheckScope(resources, indexes, resources[i]);
      if !fits {
        return Some(OutsideScope), i;
      }
    }
    return None, 0;
  }

  lemma ProblemFound(resources: seq<Resource>, k: nat, error: PlanError)
    requires FirstProblem(resources, k, error)
    ensures error in {MissingDependency, OutsideScope}
    ensures exists r | r in resources :: !Named(resources, r) || !InScope(resources, r)
  {
    hide Named, InScope;
    assert resources[k] in resources;
  }

  /** Only one problem comes first. */
  lemma OneFirstProblem(resources: seq<Resource>, k: nat, error: PlanError, l: nat, other: PlanError)
    requires FirstProblem(resources, k, error) && FirstProblem(resources, l, other)
    ensures k == l && error == other
  {
    hide Named, InScope;
  }

  /** The set of declarations one resource depends on. */
  method NeedsOf(resources: seq<Resource>, indexes: map<Identity, nat>, i: nat) returns (unique: set<nat>)
    requires Indexed(resources, indexes) && Resolved(resources) && i < |resources|
    ensures unique == Needs(resources, i)
  {
    var dependencies := resources[i].dependencies;
    unique := {};
    for j := 0 to |dependencies|
      invariant unique == set k: nat | k < |resources| && resources[k].identity in dependencies[..j]
    {
      assert dependencies[..j + 1] == dependencies[..j] + [dependencies[j]];
      assert resources[i] in resources && dependencies[j] in resources[i].dependencies;
      NamedIsIndexed(resources, indexes, resources[i], dependencies[j]);
      unique := unique + {indexes[dependencies[j]]};
    }
    assert dependencies[..|dependencies|] == dependencies;
  }

  /** Who waits for each declaration, in declaration order, and how many each waits for. */
  ghost predicate Counted(resources: seq<Resource>, n: nat, dependents: seq<seq<nat>>, indegree: seq<int>)
    requires n <= |resources|
  {
    && |dependents| == |resources| && |indegree| == n
    && (forall i | 0 <= i < n :: indegree[i] == |Needs(resources, i)|)
    && (forall d | 0 <= d < |resources| :: DependentsOf(resources, n, d, dependents[d]))
  }

  ghost predicate DependentsOf(resources: seq<Resource>, n: nat, d: nat, waiting: seq<nat>)
    requires n <= |resources|
  {
    Distinct(waiting) && forall i: nat :: i in waiting <==> i < n && d in Needs(resources, i)
  }

  method CountDependencies(resources: seq<Resource>, indexes: map<Identity, nat>)
    returns (dependents: seq<seq<nat>>, indegree: seq<int>)
    requires Indexed(resources, indexes) && Resolved(resources)
    ensures Counted(resources, |resources|, dependents, indegree)
  {
    hide Needs;
    dependents := seq(|resources|, _ => []);
    indegree := [];
    for i := 0 to |resources|
      invariant Counted(resources, i, dependents, indegree)
    {
      var unique := NeedsOf(resources, indexes, i);
      indegree := indegree + [|unique|];
      dependents := AddDependent(resources, i, dependents, unique);
    }
  }

  /** `dependents[dependency].append(identity)` for every dependency of resource `i`. */
  method AddDependent(resources: seq<Resource>, i: nat, before: seq<seq<nat>>, unique: set<nat>)
    returns (dependents: seq<seq<nat>>)
    requires i < |resources| && |before| == |resources| && unique == Needs(resources, i)
    requires forall d | 0 <= d < |resources| :: DependentsOf(resources, i, d, before[d])
    ensures |dependents| == |resources|
    ensures forall d | 0 <= d < |resources| :: DependentsOf(resources, i + 1, d, dependents[d])
  {
    dependents := before;
    var rest := unique;
    while rest != {}
      invariant rest <= unique && |dependents| == |resources|
      invariant forall d | 0 <= d < |resources| ::
        dependents[d] == if d in unique && d !in rest then before[d] + [i] else before[d]
      decreases rest
    {
      var d :| d in rest;
      dependents := dependents[d := dependents[d] + [i]];
      rest := rest - {d};
    }
    forall d | 0 <= d < |resources| ensures DependentsOf(resources, i + 1, d, dependents[d]) {
      assert DependentsOf(resources, i, d, before[d]);
    }
  }

  /** What each unplanned declaration still waits for. */
  ghost predicate Waiting(resources: seq<Resource>, planned: set<nat>, indegree: seq<int>)
  {
    |indegree| == |resources| && forall i | 0 <= i < |resources| :: indegree[i] == |Needs(resources, i) - planned|
  }

  lemma OneFewer(resources: seq<Resource>, planned: set<nat>, p: nat, i: nat)
    requires i < |resources| && p !in planned
    ensures |Needs(resources, i) - (planned + {p})|
         == |Needs(resources, i) - planned| - if p in Needs(resources, i) then 1 else 0
    ensures |Needs(resources, i) - (planned + {p})| == 0 <==> Needs(resources, i) <= planned + {p}
  {
    hide Needs;
    var left := Needs(resources, i) - planned;
    assert Needs(resources, i) - (planned + {p}) == left - {p};
    assert Needs(resources, i) <= planned + {p} <==> left - {p} == {};
  }

  /** Planning `p` releases exactly those of its dependents that now wait for nothing. */
  lemma ReadyNext(resources: seq<Resource>, planned: set<nat>, p: nat)
    requires p in Ready(resources, planned)
    ensures forall i: nat :: i in Ready(resources, planned + {p}) <==>
      || (i in Ready(resources, planned) && i != p)
      || (i < |resources| && i !in planned + {p} && p in Needs(resources, i) && Needs(resources, i) <= planned + {p})
  {
  }

  /** The inner loop: each dependent of `p` waits for one less, and joins the queue at zero. */
  method Release(resources: seq<Resource>, ghost planned: set<nat>, p: nat, waiting: seq<nat>,
                 before: seq<int>, queue: set<nat>)
    returns (indegree: seq<int>, ready: set<nat>)
    requires p in Ready(resources, planned) && Waiting(resources, planned, before) && Closed(resources, planned)
    requires queue == Ready(resources, planned) - {p} && DependentsOf(resources, |resources|, p, waiting)
    ensures Waiting(resources, planned + {p}, indegree) && ready == Ready(resources, planned + {p})
  {
    hide Needs, Ready, Closed, DependentsOf, Freed, Waiting, Hit;
    indegree, ready := before, queue;
    StartRelease(resources, planned, before, p);
    for m := 0 to |waiting|
      invariant Counts(resources, before, waiting[..m], indegree)
      invariant forall i: nat :: i in ready <==> i in queue || (i in waiting[..m] && Freed(resources, planned, p, i))
    {
      var i := waiting[m];
      NextWaiting(resources, planned, p, before, waiting, m, indegree);
      indegree := indegree[i := indegree[i] - 1];
      if indegree[i] == 0 {
        ready := ready + {i};
      }
    }
    assert waiting[..|waiting|] == waiting;
    Released(resources, planned, p, before, waiting, indegree);
    FreedAreReady(resources, planned, p, waiting, queue, ready);
  }

  /** Counters lowered for the dependents in `waiting`, and for no other. */
  ghost predicate Counts(resources: seq<Resource>, before: seq<int>, waiting: seq<nat>, indegree: seq<int>)
  {
    && |indegree| == |before| == |resources|
    && forall i | 0 <= i < |resources| :: indegree[i] == before[i] - Hit(waiting, i)
  }

  lemma StartRelease(resources: seq<Resource>, planned: set<nat>, before: seq<int>, p: nat)
    requires Waiting(resources, planned, before)
    ensures Counts(resources, before, [], before)
  {
  }

  /** The next dependent's counter comes to what it still needs once `p` is planned. */
  lemma NextWaiting(resources: seq<Resource>, planned: set<nat>, p: nat, before: seq<int>, waiting: seq<nat>, m: nat,
                    indegree: seq<int>)
    requires p in Ready(resources, planned) && Waiting(resources, planned, before)
    requires DependentsOf(resources, |resources|, p, waiting) && m < |waiting|
    requires Counts(resources, before, waiting[..m], indegree)
    ensures var i := waiting[m];
      && i < |indegree| && (indegree[i] - 1 == 0 <==> Freed(resources, planned, p, i))
      && waiting[..m + 1] == waiting[..m] + [i]
      && Counts(resources, before, waiting[..m + 1], indegree[i := indegree[i] - 1])
  {
    hide Needs;
    var i := waiting[m];
    assert i in waiting && i !in waiting[..m];
    assert waiting[..m + 1] == waiting[..m] + [i];
    OneFewer(resources, planned, p, i);
  }

  lemma Released(resources: seq<Resource>, planned: set<nat>, p: nat, before: seq<int>, waiting: seq<nat>,
                 indegree: seq<int>)
    requires p in Ready(resources, planned) && Waiting(resources, planned, before)
    requires DependentsOf(resources, |resources|, p, waiting) && Counts(resources, before, waiting, indegree)
    ensures Waiting(resources, planned + {p}, indegree)
  {
    hide Needs;
    forall i | 0 <= i < |resources| ensures indegree[i] == |Needs(resources, i) - (planned + {p})| {
      OneFewer(resources, planned, p, i);
    }
  }

  function Hit(waiting: seq<nat>, i: nat): nat
  {
    if i in waiting then 1 else 0
  }

  /** With `p` planned, the declaration waits for nothing. */
  ghost predicate Freed(resources: seq<Resource>, planned: set<nat>, p: nat, i: nat)
  {
    i < |resources| && Needs(resources, i) <= planned + {p}
  }

  lemma FreedAreReady(resources: seq<Resource>, planned: set<nat>, p: nat, waiting: seq<nat>, queue: set<nat>,
                      ready: set<nat>)
    requires p in Ready(resources, planned) && Closed(resources, planned)
    requires queue == Ready(resources, planned) - {p} && DependentsOf(resources, |resources|, p, waiting)
    requires forall i: nat :: i in ready <==> i in queue || (i in waiting && Freed(resources, planned, p, i))
    ensures ready == Ready(resources, planned + {p})
  {
    hide Needs;
    ReadyNext(resources, planned, p);
    forall i: nat ensures i in ready <==> i in Ready(resources, planned + {p}) {
      if i in waiting { WaitingIsUnplanned(resources, planned, p, i); }
    }
  }

  ghost predicate Closed(resources: seq<Resource>, planned: set<nat>)
  {
    forall i | i in planned :: i < |resources| && Needs(resources, i) <= planned
  }

  lemma WaitingIsUnplanned(resources: seq<Resource>, planned: set<nat>, p: nat, i: nat)
    requires Closed(resources, planned) && p in Ready(resources, planned)
    requires i < |resources| && p in Needs(resources, i)
    ensures i !in planned + {p}
  {
  }

  /** The plan so far: greedy, in order, and closed under dependencies. */
  ghost predicate Progress(resources: seq<Resource>, plan: seq<nat>)
  {
    Distinct(plan) && InOrder(resources, plan) && Greedy(resources, plan) && Closed(resources, Elements(plan))
  }

  lemma NextInPlan(resources: seq<Resource>, plan: seq<nat>, p: nat)
    requires Progress(resources, plan) && p in Ready(resources, Elements(plan))
    requires forall i | i in Ready(resources, Elements(plan)) :: p <= i
    ensures Progress(resources, plan + [p]) && Elements(plan + [p]) == Elements(plan) + {p}
  {
    var next := plan + [p];
    assert forall k | 0 <= k <= |plan| :: next[..k] == plan[..k];
    assert plan[..|plan|] == plan;
    forall k | 0 <= k < |next| ensures EarliestReady(resources, next, k) && Supplied(resources, next, k) {
      if k < |plan| { assert EarliestReady(resources, plan, k) && Supplied(resources, plan, k); }
    }
    assert Elements(next) == Elements(plan) + {p};
  }

  lemma ProgressSize(resources: seq<Resource>, plan: seq<nat>)
    requires Progress(resources, plan)
    ensures |plan| <= |resources|
    ensures |plan| == |resources| ==> IsPlan(resources, plan)
    ensures |plan| < |resources| ==> exists i: nat :: i < |resources| && i !in plan
  {
    DistinctSize(plan);
    var all := UpTo(|resources|);
    UpToSize(|resources|);
    assert Elements(plan) <= all;
    assert all == Elements(plan) + (all - Elements(plan));
    if |plan| == |resources| {
      assert |all - Elements(plan)| == 0;
      forall i: nat ensures i in plan <==> i < |resources| { assert i in all <==> i < |resources|; }
    } else {
      assert |all - Elements(plan)| > 0;
      var i :| i in all - Elements(plan);
    }
  }

  function UpTo(n: nat): set<nat>
  {
    if n == 0 then {} else UpTo(n - 1) + {n - 1}
  }

  lemma {:induction false} UpToSize(n: nat)
    ensures |UpTo(n)| == n && forall i: nat :: i in UpTo(n) <==> i < n
  {
    if n > 0 { UpToSize(n - 1); }
  }

  lemma LeastOf(s: set<nat>) returns (least: nat)
    requires s != {}
    ensures least in s && forall i | i in s :: least <= i
    decreases s
  {
    var i :| i in s;
    if s == {i} {
      least := i;
    } else {
      var other := LeastOf(s - {i});
      least := if i < other then i else other;
      forall j | j in s ensures least <= j { assert j == i || j in s - {i}; }
    }
  }

  /** The heap loop: pops the earliest ready declaration until none is ready. */
  method HeapLoop(resources: seq<Resource>, dependents: seq<seq<nat>>, degrees: seq<int>) returns (plan: seq<nat>)
    requires Counted(resources, |resources|, dependents, degrees)
    ensures Progress(resources, plan) && Ready(resources, Elements(plan)) == {}
  {
    plan := [];
    var indegree := degrees;
    var ready := set i: nat | i < |resources| && indegree[i] == 0;
    NothingPlanned(resources, degrees, ready);
    while ready != {}
      invariant Progress(resources, plan) && Waiting(resources, Elements(plan), indegree)
      invariant ready == Ready(resources, Elements(plan))
      invariant |plan| <= |resources|
      decreases |resources| - |plan|
    {
      hide Needs, Ready, Progress, Waiting, Counted;
      ghost var witnessed := LeastOf(ready);
      var p :| p in ready && forall i | i in ready :: p <= i;
      NextInPlan(resources, plan, p);
      ReleaseReady(resources, dependents, degrees, plan, p);
      indegree, ready := Release(resources, Elements(plan), p, dependents[p], indegree, ready - {p});
      plan := plan + [p];
      ProgressSize(resources, plan);
    }
  }

  lemma ReleaseReady(resources: seq<Resource>, dependents: seq<seq<nat>>, degrees: seq<int>, plan: seq<nat>, p: nat)
    requires Counted(resources, |resources|, dependents, degrees) && Progress(resources, plan)
    requires p in Ready(resources, Elements(plan))
    ensures p < |dependents| && DependentsOf(resources, |resources|, p, dependents[p])
    ensures Closed(resources, Elements(plan))
  {
  }

  lemma NothingPlanned(resources: seq<Resource>, degrees: seq<int>, ready: set<nat>)
    requires |degrees| == |resources| && forall i | 0 <= i < |resources| :: degrees[i] == |Needs(resources, i)|
    requires ready == set i: nat | i < |resources| && degrees[i] == 0
    ensures Progress(resources, []) && Waiting(resources, Elements([]), degrees)
    ensures ready == Ready(resources, Elements([]))
  {
    var none: seq<nat> := [];
    assert Elements(none) == {};
    forall i: nat | i < |resources| ensures degrees[i] == |Needs(resources, i) - {}| {
      assert Needs(resources, i) - {} == Needs(resources, i);
    }
    forall i: nat ensures i in ready <==> i in Ready(resources, {}) {
      if i < |resources| { assert |Needs(resources, i)| == 0 <==> Needs(resources, i) == {}; }
    }
  }

  /** `_validate_resources`: the plan is the earliest complete order, and the cycle error means no
      complete order exists. */
  method PlanResources(resources: seq<Resource>)
    returns (result: Result<seq<Resource>, PlanError>, ghost order: seq<nat>)
    ensures result == Err(DuplicateIdentity) <==> !Unique(resources)
    ensures result in {Err(MissingDependency), Err(OutsideScope)} <==>
      Unique(resources) && exists r | r in resources :: !Named(resources, r) || !InScope(resources, r)
    ensures forall k: nat, error | Unique(resources) && FirstProblem(resources, k, error) :: result == Err(error)
    ensures result.Ok? ==>
      && IsPlan(resources, order) && result.value == Picked(resources, order)
      && forall other | IsPlan(resources, other) :: order == other || Precedes(order, other)
    ensures result == Err(DependencyCycle) ==> forall other :: !IsPlan(resources, other)
    ensures result == Err(DependencyCycle) ==> !Parsed(resources)
  {
    hide Needs, Ready, Progress, IsPlan, Precedes, Named, InScope, FirstProblem;
    order := [];
    var indexes := IndexResources(resources);
    if indexes.None? {
      return Err(DuplicateIdentity), [];
    }
    ghost var at;
    var problem;
    problem, at := CheckDependencies(resources, indexes.value);
    if problem.Some? {
      ProblemFound(resources, at, problem.value);
      forall k: nat, error | FirstProblem(resources, k, error) ensures error == problem.value {
        OneFirstProblem(resources, k, error, at, problem.value);
      }
      return Err(problem.value), [];
    }
    forall k: nat, error | FirstProblem(resources, k, error) ensures false {
      ProblemFound(resources, k, error);
    }
    var dependents, indegree := CountDependencies(resources, indexes.value);
    var plan := HeapLoop(resources, dependents, indegree);
    order := plan;
    ProgressSize(resources, plan);
    if |plan| != |resources| {
      NoPlan(resources, plan);
      return Err(DependencyCycle), order;
    }
    PlanIndexes(resources, plan);
    PlanIsLeast(resources, plan);
    return Ok(Picked(resources, plan)), order;
  }

  lemma PlanIndexes(resources: seq<Resource>, order: seq<nat>)
    requires IsPlan(resources, order)
    ensures forall k | 0 <= k < |order| :: order[k] < |resources|
  {
  }

  lemma PlanIsLeast(resources: seq<Resource>, order: seq<nat>)
    requires IsPlan(resources, order) && Progress(resources, order)
    ensures forall other | IsPlan(resources, other) :: order == other || Precedes(order, other)
  {
    forall other | IsPlan(resources, other) ensures order == other || Precedes(order, other) {
      GreedyIsLeast(resources, order, other, 0);
    }
  }

  lemma NoPlan(resources: seq<Resource>, plan: seq<nat>)
    requires Ready(resources, Elements(plan)) == {}
    requires exists i: nat :: i < |resources| && i !in plan
    ensures forall other :: !IsPlan(resources, other)
    ensures !Parsed(resources)
  {
    var i: nat :| i < |resources| && i !in plan;
    assert i !in Elements(plan);
    forall other ensures !IsPlan(resources, other) { Stuck(resources, Elements(plan), other); }
    if Parsed(resources) { SomethingReady(resources, Elements(plan), i); }
  }
}
