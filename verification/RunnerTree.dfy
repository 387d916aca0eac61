/** The runner state directory: walking it, archiving it, getting it back, and removing it. */
module RunnerTree {
  import opened Prelude
  import opened StringOrder
  import opened Archives
  import opened Extraction

  // ----- The directory as the filesystem holds it -----

  /** A name a directory can hold. */
  predicate IsComponent(c: string)
  {
    c !in {"", ".", ".."} && '/' !in c
  }

  predicate Contained(tree: Tree, p: Path)
  {
    p != [] ==> p[..|p| - 1] in tree && tree[p[..|p| - 1]].Dir? && IsComponent(p[|p| - 1])
  }

  /** What any filesystem gives: every path but the root is an entry of a directory. */
  ghost predicate IsTree(tree: Tree)
  {
    [] in tree && forall p {:trigger Contained(tree, p)} | p in tree :: Contained(tree, p)
  }

  /** What the walk checks: the root is a directory, and every directory grants its owner all. */
  ghost predicate Granted(tree: Tree)
    requires [] in tree
  {
    tree[[]].Dir? && forall p | p in tree :: Open(tree[p])
  }

  predicate Open(node: FsNode)
  {
    node.Dir? ==> OwnerBits(node.mode) == OWNER_ALL
  }

  ghost predicate ValidTree(tree: Tree)
  {
    IsTree(tree) && Granted(tree)
  }

  // ----- The order of the walk -----

  /** Component by component, a path before everything below it. */
  predicate PathBefore(p: Path, q: Path)
  {
    q != [] && (p == [] || Earlier(p[0], q[0]) || (p[0] == q[0] && PathBefore(p[1..], q[1..])))
  }

  lemma {:induction false} PathBeforeTransitive(a: Path, b: Path, c: Path)
    requires PathBefore(a, b) && PathBefore(b, c)
    ensures PathBefore(a, c)
  {
    if a != [] {
      EarlierTotal(a[0], a[0]);
      if a[0] == b[0] == c[0] {
        PathBeforeTransitive(a[1..], b[1..], c[1..]);
      } else if a[0] != b[0] && b[0] != c[0] {
        EarlierTransitive(a[0], b[0], c[0]);
      }
    }
  }

  lemma {:induction false} PathBeforeStrict(a: Path, b: Path)
    ensures !(PathBefore(a, b) && PathBefore(b, a)) && !PathBefore(a, a)
  {
    if a != [] {
      PathBeforeStrict(a[1..], a[1..]);
      EarlierTotal(a[0], a[0]);
    }
    if a != [] && b != [] {
      PathBeforeStrict(a[1..], b[1..]);
      EarlierTotal(a[0], b[0]);
    }
  }

  lemma {:induction false} ParentBefore(p: Path, c: string)
    ensures PathBefore(p, p + [c])
  {
    if p != [] {
      ParentBefore(p[1..], c);
      assert (p + [c])[1..] == p[1..] + [c];
    }
  }

  lemma PrefixFromTails(p: Path, q: Path)
    requires p != [] && q != [] && p[0] == q[0]
    ensures p[1..] <= q[1..] ==> p <= q
  {
    assert p == [p[0]] + p[1..] && q == [q[0]] + q[1..];
  }

  /** Everything below a path comes before whatever the path comes before, unless that is below it too. */
  lemma {:induction false} BeforeExtended(p: Path, q: Path, c: string)
    requires PathBefore(p, q) && !(p <= q)
    ensures PathBefore(p + [c], q)
  {
    assert p != [];
    if p[0] == q[0] && PathBefore(p[1..], q[1..]) {
      PrefixFromTails(p, q);
      BeforeExtended(p[1..], q[1..], c);
      assert (p + [c])[1..] == p[1..] + [c];
    }
  }

  lemma {:induction false} SiblingsInOrder(p: Path, a: string, b: string)
    requires Earlier(a, b)
    ensures PathBefore(p + [a], p + [b])
  {
    if p != [] {
      SiblingsInOrder(p[1..], a, b);
      assert (p + [a])[1..] == p[1..] + [a] && (p + [b])[1..] == p[1..] + [b];
    }
  }

  predicate InOrder(entries: seq<Path>)
  {
    forall i, j | 0 <= i < j < |entries| :: PathBefore(entries[i], entries[j])
  }

  /** The walk so far is in order, and goes on in order through the worklist, last first. */
  ghost predicate GoesOn(entries: seq<Path>, pending: seq<Path>)
  {
    && InOrder(entries) && Descends(pending)
    && forall e, p | e in entries && p in pending :: PathBefore(e, p)
  }

  predicate Descends(paths: seq<Path>)
  {
    forall i, j | 0 <= i < j < |paths| :: PathBefore(paths[j], paths[i])
  }

  lemma VisitInOrder(entries: seq<Path>, rest: seq<Path>, path: Path, below: seq<Path>)
    requires GoesOn(entries, rest + [path]) && Descends(below)
    requires forall r | r in rest :: !(path <= r)
    requires forall q | q in below :: q != [] && q[..|q| - 1] == path
    ensures GoesOn(entries + [path], rest + below)
  {
    var pending := rest + [path];
    assert pending[|rest|] == path && path in pending;
    forall i | 0 <= i < |rest| ensures PathBefore(path, rest[i]) { assert pending[i] == rest[i]; }
    forall q | q in below ensures PathBefore(path, q) {
      ParentBefore(path, q[|q| - 1]);
      assert q == path + [q[|q| - 1]];
    }
    forall q, r | q in below && r in rest ensures PathBefore(q, r) {
      BeforeExtended(path, r, q[|q| - 1]);
      assert q == path + [q[|q| - 1]];
    }
    forall e, p | e in entries + [path] && p in rest + below ensures PathBefore(e, p) {
      if e in entries && p in below { PathBeforeTransitive(e, path, p); }
      if e in entries && p in rest { assert p in pending; }
    }
    assert Descends(rest + below) by {
      forall i, j | 0 <= i < j < |rest + below| ensures PathBefore((rest + below)[j], (rest + below)[i]) {
        if j < |rest| { assert pending[i] == rest[i] && pending[j] == rest[j]; }
      }
    }
  }

  /** Only one list of given paths is in order: the tree alone decides the walk. */
  lemma {:induction false} OrderIsUnique(a: seq<Path>, b: seq<Path>)
    requires InOrder(a) && InOrder(b) && forall p :: p in a <==> p in b
    ensures a == b
    decreases |a|
  {
    if a == [] {
      assert forall i | 0 <= i < |b| :: b[i] in b;
    } else {
      assert a[0] in b;
      assert b[0] in a;
      PathBeforeStrict(a[0], b[0]);
      assert a[0] == b[0];
      forall p ensures p in a[1..] <==> p in b[1..] {
        PathBeforeStrict(a[0], a[0]);
        if p in a[1..] { assert p in a; }
        if p in b[1..] { assert p in b; }
      }
      OrderIsUnique(a[1..], b[1..]);
      assert a == [a[0]] + a[1..] && b == [b[0]] + b[1..];
    }
  }

  function Children(tree: Tree, p: Path): set<string>
  {
    set q | q in tree && q != [] && q[..|q| - 1] == p :: q[|q| - 1]
  }

  lemma ChildrenAre(tree: Tree, p: Path, c: string)
    ensures c in Children(tree, p) <==> p + [c] in tree
  {
    LastComponent(p, c);
    if c in Children(tree, p) {
      var q :| q in tree && q != [] && q[..|q| - 1] == p && q[|q| - 1] == c;
      assert q == p + [c];
    }
  }

  // ----- The walk -----

  /** Every path of the tree once, each after its parent. */
  ghost predicate ParentFirst(tree: Tree, entries: seq<Path>)
  {
    && Distinct(entries) && (forall p :: p in entries <==> p in tree)
    && (forall i {:trigger AfterParent(entries, i)} | 0 <= i < |entries| :: AfterParent(entries, i))
  }

  ghost predicate AfterParent(entries: seq<Path>, i: nat)
    requires i < |entries|
  {
    entries[i] != [] ==> entries[i][..|entries[i]| - 1] in entries[..i]
  }

  predicate Apart(p: Path, q: Path) { !(p <= q) && !(q <= p) }

  /** The worklist: subtrees not yet walked, side by side, each below a walked directory. */
  ghost predicate Pending(tree: Tree, entries: seq<Path>, pending: seq<Path>)
  {
    && (forall p | p in pending :: p in tree)
    && (forall i, j | 0 <= i < j < |pending| :: Apart(pending[i], pending[j]))
    && (forall p, q | p in pending && q in entries :: !(p <= q))
    && (forall q | q in tree :: q in entries || Awaits(pending, q))
    && (forall p | p in pending && p != [] :: p[..|p| - 1] in entries)
  }

  ghost predicate Awaits(pending: seq<Path>, q: Path)
  {
    exists p | p in pending :: p <= q
  }

  ghost predicate Walked(tree: Tree, entries: seq<Path>)
  {
    && Distinct(entries) && (forall p | p in entries :: p in tree)
    && (forall i {:trigger AfterParent(entries, i)} | 0 <= i < |entries| :: AfterParent(entries, i))
  }

  /** The names below a directory as paths, in reverse. */
  ghost predicate Reverses(p: Path, names: seq<string>, paths: seq<Path>)
  {
    |paths| == |names| && forall k | 0 <= k < |paths| :: paths[k] == p + [names[|names| - 1 - k]]
  }

  lemma ReversedChildren(tree: Tree, p: Path, names: seq<string>, paths: seq<Path>)
    requires Reverses(p, names, paths) && forall c :: c in names <==> c in Children(tree, p)
    ensures forall q | q in paths :: q in tree && q != [] && q[..|q| - 1] == p
    ensures forall c | p + [c] in tree :: p + [c] in paths
  {
    hide Children;
    forall k | 0 <= k < |paths| ensures paths[k] in tree && paths[k] != [] && paths[k][..|paths[k]| - 1] == p {
      assert names[|names| - 1 - k] in names;
      ChildrenAre(tree, p, names[|names| - 1 - k]);
      LastComponent(p, names[|names| - 1 - k]);
    }
    forall c | p + [c] in tree ensures p + [c] in paths {
      ChildrenAre(tree, p, c);
      var k :| 0 <= k < |names| && names[k] == c;
      assert paths[|names| - 1 - k] == p + [c];
    }
  }

  lemma ReversedDescends(p: Path, names: seq<string>, paths: seq<Path>)
    requires Reverses(p, names, paths) && forall i, j | 0 <= i < j < |names| :: Earlier(names[i], names[j])
    ensures Distinct(paths) && Descends(paths)
  {
    hide Earlier, PathBefore;
    forall k, l | 0 <= k < l < |paths| ensures paths[k] != paths[l] && PathBefore(paths[l], paths[k]) {
      LastComponent(p, names[|names| - 1 - k]);
      LastComponent(p, names[|names| - 1 - l]);
      EarlierTotal(names[|names| - 1 - k], names[|names| - 1 - l]);
      SiblingsInOrder(p, names[|names| - 1 - l], names[|names| - 1 - k]);
    }
  }

  /** The children of a directory as paths, last name first, ready to be popped in name order. */
  method ChildPaths(tree: Tree, p: Path) returns (paths: seq<Path>)
    ensures forall q | q in paths :: q in tree && q != [] && q[..|q| - 1] == p
    ensures forall c | p + [c] in tree :: p + [c] in paths
    ensures Distinct(paths) && Descends(paths)
  {
    hide Children, Ascending, Descends, Distinct;
    var names := SortedStrings(Children(tree, p));
    AscendingMembers(Children(tree, p));
    paths := [];
    for i := 0 to |names|
      invariant |paths| == i && forall k | 0 <= k < i :: paths[k] == p + [names[i - 1 - k]]
    {
      paths := [p + [names[i]]] + paths;
    }
    ReversedChildren(tree, p, names, paths);
    ReversedDescends(p, names, paths);
  }

  /** What one visit adds to the worklist. */
  ghost predicate AreBelow(tree: Tree, path: Path, below: seq<Path>)
    requires path in tree
  {
    && Distinct(below) && Descends(below)
    && (forall q | q in below :: q in tree && q != [] && q[..|q| - 1] == path)
    && (tree[path].Dir? ==> forall c | path + [c] in tree :: path + [c] in below)
  }

  method Below(tree: Tree, path: Path) returns (below: seq<Path>)
    requires path in tree
    ensures AreBelow(tree, path, below)
  {
    below := [];
    if tree[path].Dir? {
      below := ChildPaths(tree, path);
    }
  }

  /** `_validate_runner_tree`: the walk, by a stack of what is still to visit. It ends early at a
      directory its owner cannot use. */
  method Walk(tree: Tree) returns (walked: Option<seq<Path>>)
    requires IsTree(tree)
    ensures walked.Some? <==> Granted(tree)
    ensures walked.Some? ==>
      ParentFirst(tree, walked.value) && walked.value != [] && walked.value[0] == [] && InOrder(walked.value)
  {
    hide IsTree, Granted, Walking, ParentFirst, InOrder, Open, AreBelow;
    StartWalking(tree);
    if !tree[[]].Dir? {
      return None;
    }
    var pending: seq<Path> := [[]];
    var entries: seq<Path> := [];
    while pending != []
      invariant Walking(tree, entries, pending)
      invariant |entries| <= |tree.Keys|
      decreases |tree.Keys| - |entries|
    {
      var path, rest := pending[|pending| - 1], pending[..|pending| - 1];
      assert pending == rest + [path];
      PoppedInTree(tree, entries, rest, path);
      if !Open(tree[path]) {
        Refused(tree, path);
        return None;
      }
      var below := Below(tree, path);
      NextWalking(tree, entries, rest, path, below);
      entries, pending := entries + [path], rest + below;
    }
    DoneWalking(tree, entries);
    return Some(entries);
  }

  /** What the loop keeps. */
  ghost predicate Walking(tree: Tree, entries: seq<Path>, pending: seq<Path>)
  {
    && Walked(tree, entries) && Pending(tree, entries, pending) && GoesOn(entries, pending)
    && forall p | p in entries :: p in tree && Open(tree[p])
  }

  lemma StartWalking(tree: Tree)
    requires IsTree(tree)
    ensures Walking(tree, [], [[]])
    ensures [] in tree && (!tree[[]].Dir? ==> !Granted(tree))
  {
    NothingWalked(tree);
  }

  lemma NextWalking(tree: Tree, entries: seq<Path>, rest: seq<Path>, path: Path, below: seq<Path>)
    requires IsTree(tree) && Walking(tree, entries, rest + [path]) && path in tree && Open(tree[path])
    requires AreBelow(tree, path, below)
    ensures Walking(tree, entries + [path], rest + below) && |entries + [path]| <= |tree.Keys|
  {
    hide IsTree, Pending, Walked, GoesOn, Open, Descends;
    Visit(tree, entries, rest, path, below);
    PoppedApart(tree, entries, rest, path);
    VisitInOrder(entries, rest, path, below);
    WalkedSize(tree, entries + [path]);
  }

  lemma Refused(tree: Tree, path: Path)
    requires [] in tree && path in tree && !Open(tree[path])
    ensures !Granted(tree)
  {
  }

  lemma DoneWalking(tree: Tree, entries: seq<Path>)
    requires IsTree(tree) && tree[[]].Dir? && Walking(tree, entries, [])
    ensures Granted(tree) && ParentFirst(tree, entries) && entries != [] && entries[0] == [] && InOrder(entries)
  {
    AllWalked(tree, entries);
    var i :| 0 <= i < |entries| && entries[i] == [];
    assert i > 0 ==> PathBefore(entries[0], entries[i]);
  }

  lemma NothingWalked(tree: Tree)
    requires IsTree(tree)
    ensures Pending(tree, [], [[]]) && Walked(tree, [])
  {
    var root: Path := [];
    forall q | q in tree ensures Awaits([root], q) { assert root in [root] && root <= q; }
  }

  lemma PoppedApart(tree: Tree, entries: seq<Path>, rest: seq<Path>, path: Path)
    requires Pending(tree, entries, rest + [path])
    ensures forall r | r in rest :: !(path <= r)
  {
    var pending := rest + [path];
    forall r | r in rest ensures !(path <= r) {
      var i :| 0 <= i < |rest| && rest[i] == r;
      assert Apart(pending[i], pending[|rest|]);
    }
  }

  lemma PoppedInTree(tree: Tree, entries: seq<Path>, rest: seq<Path>, path: Path)
    requires Walking(tree, entries, rest + [path])
    ensures path in tree
  {
    assert path in rest + [path];
  }

  lemma AllWalked(tree: Tree, entries: seq<Path>)
    requires IsTree(tree) && Pending(tree, entries, []) && Walked(tree, entries)
    ensures ParentFirst(tree, entries) && entries != []
  {
    assert [] in entries;
  }

  lemma WalkedSize(tree: Tree, entries: seq<Path>)
    requires Walked(tree, entries)
    ensures |entries| <= |tree.Keys|
  {
    DistinctSize(entries);
    SubsetSize(Elements(entries), tree.Keys);
  }

  lemma SubsetSize<T>(a: set<T>, b: set<T>)
    requires a <= b
    ensures |a| <= |b|
  {
    assert b == a + (b - a);
  }

  /** One visit: the popped path joins the entries, its children the worklist. */
  lemma Visit(tree: Tree, entries: seq<Path>, rest: seq<Path>, path: Path, below: seq<Path>)
    requires IsTree(tree) && Walked(tree, entries) && Pending(tree, entries, rest + [path])
    requires Distinct(below) && forall q | q in below :: q in tree && q != [] && q[..|q| - 1] == path
    requires tree[path].Dir? ==> forall c | path + [c] in tree :: path + [c] in below
    ensures Walked(tree, entries + [path]) && Pending(tree, entries + [path], rest + below)
  {
    VisitWalked(tree, entries, rest, path);
    VisitApart(tree, entries, rest, path, below);
    VisitCovers(tree, entries, rest, path, below);
    VisitUnseen(tree, entries, rest, path, below);
  }

  lemma VisitWalked(tree: Tree, entries: seq<Path>, rest: seq<Path>, path: Path)
    requires Walked(tree, entries) && Pending(tree, entries, rest + [path])
    ensures Walked(tree, entries + [path])
  {
    var pending, more := rest + [path], entries + [path];
    assert path in pending && path <= path;
    forall i | 0 <= i < |more| ensures AfterParent(more, i) {
      if i < |entries| { assert AfterParent(entries, i) && more[..i] == entries[..i]; }
      else { assert more[..i] == entries; }
    }
  }

  lemma PrefixOfChild(r: Path, q: Path)
    requires q != []
    ensures r <= q <==> r == q || r <= q[..|q| - 1]
  {
    if r <= q && |r| < |q| { assert r == q[..|r|] == q[..|q| - 1][..|r|]; }
    if r <= q && |r| == |q| { assert r == q[..|r|]; }
  }

  lemma PrefixTransitive(a: Path, b: Path, c: Path)
    ensures a <= b && b <= c ==> a <= c
  {
    if a <= b && b <= c { assert a == b[..|a|] == c[..|a|]; }
  }

  lemma ChildApart(path: Path, q: Path, r: Path)
    requires q != [] && q[..|q| - 1] == path && Apart(r, path)
    ensures Apart(r, q)
  {
    PrefixOfChild(r, q);
    PrefixOfChild(path, q);
    PrefixTransitive(path, q, r);
  }

  lemma VisitApart(tree: Tree, entries: seq<Path>, rest: seq<Path>, path: Path, below: seq<Path>)
    requires Pending(tree, entries, rest + [path])
    requires Distinct(below) && forall q | q in below :: q != [] && q[..|q| - 1] == path
    ensures forall i, j | 0 <= i < j < |rest + below| :: Apart((rest + below)[i], (rest + below)[j])
  {
    var pending, next := rest + [path], rest + below;
    forall i, j | 0 <= i < j < |next| ensures Apart(next[i], next[j]) {
      if j < |rest| {
        assert Apart(pending[i], pending[j]);
      } else if i < |rest| {
        assert Apart(pending[i], pending[|rest|]);
        ChildApart(path, next[j], next[i]);
      } else {
        assert next[i] in below && next[j] in below;
        Siblings(path, next[i], next[j]);
      }
    }
  }

  lemma Siblings(path: Path, q: Path, r: Path)
    requires q != [] && r != [] && q[..|q| - 1] == path == r[..|r| - 1] && q != r
    ensures Apart(q, r)
  {
    PrefixOfChild(q, r);
    PrefixOfChild(r, q);
  }

  lemma VisitCovers(tree: Tree, entries: seq<Path>, rest: seq<Path>, path: Path, below: seq<Path>)
    requires IsTree(tree) && Pending(tree, entries, rest + [path])
    requires tree[path].Dir? ==> forall c | path + [c] in tree :: path + [c] in below
    ensures forall q | q in tree :: q in entries + [path] || Awaits(rest + below, q)
  {
    hide IsTree, Awaits;
    forall q | q in tree && q !in entries + [path] ensures Awaits(rest + below, q) {
      assert Awaits(rest + [path], q);
      AwaitsSplit(rest, path, q);
      if path <= q {
        var c := BelowIt(tree, path, q);
        AwaitsBy(rest, below, path + [c], q);
      } else {
        AwaitsMore(rest, below, q);
      }
    }
  }

  lemma AwaitsSplit(rest: seq<Path>, path: Path, q: Path)
    requires Awaits(rest + [path], q)
    ensures path <= q || Awaits(rest, q)
  {
  }

  lemma AwaitsMore(rest: seq<Path>, below: seq<Path>, q: Path)
    requires Awaits(rest, q)
    ensures Awaits(rest + below, q)
  {
    var p :| p in rest && p <= q;
    assert p in rest + below;
  }

  lemma AwaitsBy(rest: seq<Path>, below: seq<Path>, p: Path, q: Path)
    requires p in below && p <= q
    ensures Awaits(rest + below, q)
  {
    assert p in rest + below;
  }

  /** What is below a path of the tree is below one of its children, and the path is a directory. */
  lemma {:induction false} BelowIt(tree: Tree, path: Path, q: Path) returns (c: string)
    requires IsTree(tree) && q in tree && path <= q && path != q
    ensures path in tree && tree[path].Dir? && path + [c] in tree && path + [c] <= q
    decreases |q|
  {
    assert Contained(tree, q);
    var parent := q[..|q| - 1];
    if parent == path {
      c := q[|q| - 1];
      assert q == path + [c];
    } else {
      assert path <= parent;
      c := BelowIt(tree, path, parent);
      assert path + [c] == parent[..|path| + 1] == q[..|path| + 1];
    }
  }

  lemma VisitUnseen(tree: Tree, entries: seq<Path>, rest: seq<Path>, path: Path, below: seq<Path>)
    requires Pending(tree, entries, rest + [path])
    requires forall q | q in below :: q != [] && q[..|q| - 1] == path
    ensures forall p, q | p in rest + below && q in entries + [path] :: !(p <= q)
    ensures forall p | p in rest + below && p != [] :: p[..|p| - 1] in entries + [path]
  {
    var pending := rest + [path];
    forall p, q | p in rest + below && q in entries + [path] ensures !(p <= q) {
      if p in below {
        assert path <= p;
        assert path in pending;
        PrefixTransitive(path, p, q);
      } else {
        assert p in pending;
        if q == path {
          var i :| 0 <= i < |rest| && rest[i] == p;
          assert Apart(pending[i], pending[|rest|]);
        }
      }
    }
  }

  // ----- Archiving -----

  /** The owner may read the file: archiving opens every regular file, which validation does not. */
  predicate OwnerReads(node: FsNode)
  {
    node.File? ==> OwnerBits(node.mode) >= OWNER_READ
  }

  ghost predicate Readable(tree: Tree)
  {
    forall p | p in tree :: OwnerReads(tree[p])
  }

  /** The member written for one path: a directory keeps its mode, a file only the owner's bits. */
  function MemberOf(tree: Tree, p: Path): Member
    requires p in tree && p != []
  {
    match tree[p]
    case Dir(mode) => Member(Join(p), Directory, mode, 0, false, [])
    case File(mode, content) => Member(Join(p), Regular, OwnerBits(mode), |content|, false, content)
  }

  ghost predicate Packs(tree: Tree, entries: seq<Path>, members: seq<Member>)
  {
    && ParentFirst(tree, entries) && entries != [] && entries[0] == []
    && |members| == |entries| - 1
    && forall i | 0 <= i < |members| ::
         entries[i + 1] in tree && entries[i + 1] != [] && members[i] == MemberOf(tree, entries[i + 1])
  }

  /** `create_runner_archive`: every entry but the root, in walk order. It fails at a directory its owner
      cannot use, and at a file its owner cannot read. */
  method CreateArchive(tree: Tree) returns (archive: Option<seq<Member>>, ghost entries: seq<Path>)
    requires IsTree(tree)
    ensures archive.Some? <==> Granted(tree) && Readable(tree)
    ensures archive.Some? ==> Packs(tree, entries, archive.value) && InOrder(entries)
  {
    hide IsTree, Granted, InOrder, OwnerReads;
    entries := [];
    var walk := Walk(tree);
    if walk.None? {
      return None, entries;
    }
    var walked := walk.value;
    entries := walked;
    var members := [];
    for i := 1 to |walked|
      invariant |members| == i - 1
      invariant forall j | 0 <= j < i - 1 ::
        walked[j + 1] in tree && walked[j + 1] != [] && members[j] == MemberOf(tree, walked[j + 1])
      invariant forall j | 1 <= j < i :: OwnerReads(tree[walked[j]])
    {
      assert walked[i] in walked;
      if !OwnerReads(tree[walked[i]]) {
        return None, entries;
      }
      members := members + [MemberOf(tree, walked[i])];
    }
    RootIsRead(tree);
    assert forall p | p in tree :: p in walked;
    return Some(members), entries;
  }

  lemma RootIsRead(tree: Tree)
    requires IsTree(tree) && Granted(tree)
    ensures OwnerReads(tree[[]])
  {
  }

  /** The archive is a function of the tree. */
  lemma ArchiveIsUnique(tree: Tree, e1: seq<Path>, m1: seq<Member>, e2: seq<Path>, m2: seq<Member>)
    requires Packs(tree, e1, m1) && InOrder(e1) && Packs(tree, e2, m2) && InOrder(e2)
    ensures m1 == m2
  {
    hide InOrder;
    OrderIsUnique(e1, e2);
  }

  // ----- Names -----

  lemma {:induction false} ComponentsLegal(tree: Tree, p: Path)
    requires ValidTree(tree) && p in tree
    ensures forall c | c in p :: IsComponent(c)
    decreases |p|
  {
    if p != [] {
      assert Contained(tree, p);
      ComponentsLegal(tree, p[..|p| - 1]);
      assert p == p[..|p| - 1] + [p[|p| - 1]];
    }
  }

  predicate HasBackslash(p: Path)
  {
    exists c | c in p :: '\\' in c
  }

  lemma {:induction false} BackslashInName(p: Path)
    requires p != []
    ensures '\\' in Join(p) <==> HasBackslash(p)
  {
    if |p| == 1 {
      assert p[0] in p;
    } else {
      BackslashInName(p[1..]);
      assert p[0] in p && p == [p[0]] + p[1..];
    }
  }

  lemma NameReadsBack(p: Path)
    requires p != [] && forall c | c in p :: IsComponent(c)
    ensures Split(Join(p)) == p
    ensures SafeName(Join(p)) <==> !HasBackslash(p)
  {
    SplitJoin(p);
    BackslashInName(p);
    assert p[0] in p && p[0] != "";
    assert Join(p)[0] == p[0][0] && p[0][0] in p[0];
  }

  // ----- The round trip -----

  /** Every name below the root is free of backslashes. */
  ghost predicate Portable(tree: Tree)
  {
    forall p | p in tree :: !HasBackslash(p)
  }

  /** The tree as extraction gives it back: private directories, files with the owner's bits. */
  function Masked(tree: Tree): Tree
  {
    map p | p in tree ::
      match tree[p]
      case Dir(_) => PRIVATE
      case File(mode, content) => File(OwnerBits(mode), content)
  }

  lemma MemberReadsBack(tree: Tree, p: Path)
    requires ValidTree(tree) && p in tree && p != []
    ensures Parts(MemberOf(tree, p)) == p && Complete(MemberOf(tree, p))
    ensures Legal(MemberOf(tree, p)) <==> !HasBackslash(p)
  {
    ComponentsLegal(tree, p);
    NameReadsBack(p);
  }

  lemma PackedParts(tree: Tree, entries: seq<Path>, members: seq<Member>, i: nat)
    requires ValidTree(tree) && Packs(tree, entries, members) && i < |members|
    ensures Parts(members[i]) == entries[i + 1] && Complete(members[i])
    ensures Legal(members[i]) <==> !HasBackslash(entries[i + 1])
    ensures entries[i + 1] in tree && entries[i + 1] != [] && members[i] == MemberOf(tree, entries[i + 1])
  {
    MemberReadsBack(tree, entries[i + 1]);
  }

  /** Every path but the root is some member's. */
  lemma PackedIndex(tree: Tree, entries: seq<Path>, members: seq<Member>, p: Path) returns (i: nat)
    requires Packs(tree, entries, members) && p in tree && p != []
    ensures i < |members| && entries[i + 1] == p
  {
    assert p in entries;
    var k :| 0 <= k < |entries| && entries[k] == p;
    i := k - 1;
  }

  lemma PackedConflictFree(tree: Tree, entries: seq<Path>, members: seq<Member>)
    requires ValidTree(tree) && Packs(tree, entries, members)
    ensures ConflictFree(members)
  {
    hide Split, IsTree, Granted;
    forall i, j | 0 <= i < j < |members| ensures Parts(members[i]) != Parts(members[j]) {
      PackedParts(tree, entries, members, i);
      PackedParts(tree, entries, members, j);
    }
    forall i, j | 0 <= i < |members| && 0 <= j < |members| && members[i].kind.Regular?
      ensures !ProperPrefix(Parts(members[i]), Parts(members[j]))
    {
      PackedParts(tree, entries, members, i);
      PackedParts(tree, entries, members, j);
      if ProperPrefix(entries[i + 1], entries[j + 1]) {
        var c := BelowIt(tree, entries[i + 1], entries[j + 1]);
      }
    }
  }

  lemma {:induction false} PrefixInTree(tree: Tree, p: Path, q: Path)
    requires ValidTree(tree) && q in tree && p <= q
    ensures p in tree
    decreases |q|
  {
    if p != q { var c := BelowIt(tree, p, q); }
  }

  lemma PackedSeen(tree: Tree, entries: seq<Path>, members: seq<Member>, p: Path)
    requires ValidTree(tree) && Packs(tree, entries, members)
    ensures p in tree <==> p == [] || Seen(members, |members|, p)
  {
    hide Split;
    if p in tree && p != [] {
      var i := PackedIndex(tree, entries, members, p);
      PackedParts(tree, entries, members, i);
      assert p <= Parts(members[i]);
    }
    if Seen(members, |members|, p) {
      var i :| 0 <= i < |members| && p <= Parts(members[i]);
      PackedParts(tree, entries, members, i);
      PrefixInTree(tree, p, entries[i + 1]);
    }
  }

  lemma PackedExtracts(tree: Tree, entries: seq<Path>, members: seq<Member>)
    requires ValidTree(tree) && Packs(tree, entries, members)
    ensures IsExtraction(members, |members|, Masked(tree))
  {
    hide Split, ValidTree, Seen;
    forall p ensures p in Masked(tree) <==> p == [] || Seen(members, |members|, p) {
      PackedSeen(tree, entries, members, p);
    }
    forall i | 0 <= i < |members| && members[i].kind.Regular?
      ensures Parts(members[i]) in Masked(tree) && Complete(members[i]) && members[i].size >= 0
      ensures Masked(tree)[Parts(members[i])] == FileOf(members[i])
    {
      PackedParts(tree, entries, members, i);
      assert members[i].stored[..members[i].size] == members[i].stored;
    }
    forall p | p in Masked(tree) && !RegularAt(members, |members|, p) ensures Masked(tree)[p] == PRIVATE {
      if p != [] {
        var i := PackedIndex(tree, entries, members, p);
        PackedParts(tree, entries, members, i);
      } else {
        RootIsDirectory(tree);
      }
    }
  }

  lemma RootIsDirectory(tree: Tree)
    requires ValidTree(tree)
    ensures [] in tree && tree[[]].Dir?
  {
  }

  lemma RootHasNoBackslash()
    ensures !HasBackslash([])
  {
  }

  /** An archive of a valid tree is acceptable exactly when no name holds a backslash. */
  lemma AcceptableIffPortable(tree: Tree, entries: seq<Path>, members: seq<Member>)
    requires ValidTree(tree) && Packs(tree, entries, members)
    ensures Acceptable(members) <==> Portable(tree)
  {
    hide Split, ValidTree, HasBackslash, Legal, Complete;
    PackedConflictFree(tree, entries, members);
    hide ConflictFree;
    forall i | 0 <= i < |members|
      ensures Complete(members[i]) && (Legal(members[i]) <==> !HasBackslash(entries[i + 1]))
    {
      PackedParts(tree, entries, members, i);
    }
    RootHasNoBackslash();
    if AllLegal(members) {
      forall p | p in tree ensures !HasBackslash(p) {
        if p != [] {
          var i := PackedIndex(tree, entries, members, p);
          assert Legal(members[i]);
        }
      }
    }
  }

  /** Archiving, validating and extracting a tree succeeds exactly when every directory grants its owner
      all, its owner can read every file and no name holds a backslash. It then gives back the same paths
      and bytes, with private modes. */
  method RoundTrip(tree: Tree) returns (restored: Option<Tree>)
    requires IsTree(tree)
    ensures restored.Some? <==> Granted(tree) && Readable(tree) && Portable(tree)
    ensures restored.Some? ==> restored.value == Masked(tree)
  {
    hide IsTree, Granted, Readable, Packs, Acceptable, IsExtraction, Portable, Masked;
    var archive, entries := CreateArchive(tree);
    if archive.None? {
      return None;
    }
    var members := archive.value;
    AcceptableIffPortable(tree, entries, members);
    var destination := ExtractArchive(members);
    if destination.None? {
      return None;
    }
    PackedExtracts(tree, entries, members);
    ExtractionIsUnique(members, destination.value.tree, Masked(tree));
    return Some(destination.value.tree);
  }

  /** What a round trip gives back makes every further round trip, and comes back as it is. */
  lemma MaskedSettles(tree: Tree)
    requires IsTree(tree) && Granted(tree) && Readable(tree) && Portable(tree)
    ensures var back := Masked(tree);
      IsTree(back) && Granted(back) && Readable(back) && Portable(back) && Masked(back) == back
  {
    hide HasBackslash, IsComponent;
    var back := Masked(tree);
    forall p | p in back ensures Contained(back, p) { assert Contained(tree, p); }
  }

  /** A file its owner may only write passes the walk and stops the archive. */
  const WRITE_ONLY: Tree := map[[] := Dir(OWNER_ALL), ["state"] := File(128, [])]

  lemma WalkedNotArchived()
    ensures IsTree(WRITE_ONLY) && Granted(WRITE_ONLY) && Portable(WRITE_ONLY) && !Readable(WRITE_ONLY)
  {
    assert ["state"] in WRITE_ONLY;
    assert ["state"][..0] == [];
  }

  // ----- Removing the tree -----

  /** `rmdir` refuses a directory with anything left in it. */
  predicate Removable(tree: Tree, p: Path)
  {
    p in tree && (tree[p].Dir? ==> Children(tree, p) == {})
  }

  /** The walk's entries from the last to the first: every removal succeeds, and nothing is left. */
  method RemoveTree(tree: Tree, entries: seq<Path>) returns (removed: bool, left: Tree)
    requires ValidTree(tree) && ParentFirst(tree, entries)
    ensures removed && left == map[]
  {
    left := tree;
    var i := |entries|;
    assert entries[..i] == entries;
    while i > 0
      invariant 0 <= i <= |entries|
      invariant left.Keys == Elements(entries[..i])
      invariant forall p | p in left :: p in tree && left[p] == tree[p]
    {
      i := i - 1;
      LastIsEmpty(tree, entries, i, left);
      if !Removable(left, entries[i]) {
        return false, left;
      }
      assert entries[..i + 1] == entries[..i] + [entries[i]];
      left := left - {entries[i]};
    }
    return true, left;
  }

  /** What is left below a directory comes after it in the walk, so the last entry has nothing. */
  lemma LastIsEmpty(tree: Tree, entries: seq<Path>, i: nat, left: Tree)
    requires ParentFirst(tree, entries) && i < |entries| && left.Keys == Elements(entries[..i + 1])
    ensures Removable(left, entries[i])
    ensures left.Keys - {entries[i]} == Elements(entries[..i])
  {
    var p := entries[i];
    assert entries[..i + 1] == entries[..i] + [p];
    forall q | q in left && q != [] ensures q[..|q| - 1] != p {
      var k :| 0 <= k < i + 1 && entries[k] == q;
      assert AfterParent(entries, k);
      assert forall l | 0 <= l < k :: entries[l] != p;
    }
  }
}
