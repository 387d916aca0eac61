/** The runner archive: which member lists are accepted, and why extracting an accepted list cannot
    meet an obstacle. */
module Archives {
  import opened Prelude

  type Path = seq<string>

  newtype Byte = x: int | 0 <= x < 256

  datatype MemberType = Directory | Regular | Unsupported

  /** `stored` is what the archive really holds for the member; `size` is what its header says. */
  datatype Member = Member(name: string, kind: MemberType, mode: nat, size: int, sparse: bool, stored: seq<Byte>)

  const OWNER_ALL := 448   // 0o700
  const OWNER_READ := 256  // 0o400, the highest of the owner's bits

  /** `mode & 0o700`. */
  function OwnerBits(mode: nat): (r: nat)
    ensures r <= OWNER_ALL && OwnerBitsOf(r) == r
  {
    OwnerBitsOf(mode)
  }

  function OwnerBitsOf(mode: nat): nat
  {
    mode / 64 % 8 * 64
  }

  // ----- Member names -----

  /** `name.split("/")`. */
  function Split(name: string): (r: Path)
    ensures r != []
  {
    if name == "" then [""]
    else
      var rest := Split(name[1..]);
      if name[0] == '/' then [""] + rest else [[name[0]] + rest[0]] + rest[1..]
  }

  function Join(parts: Path): string
    requires parts != []
  {
    if |parts| == 1 then parts[0] else parts[0] + "/" + Join(parts[1..])
  }

  lemma {:induction false} SplitWhole(part: string)
    requires '/' !in part
    ensures Split(part) == [part]
  {
    if part != "" {
      SplitWhole(part[1..]);
      assert [part[0]] + part[1..] == part;
    }
  }

  lemma {:induction false} SplitFirst(part: string, rest: string)
    requires '/' !in part
    ensures Split(part + "/" + rest) == [part] + Split(rest)
  {
    var whole := part + "/" + rest;
    if part == "" {
      assert whole[1..] == rest;
    } else {
      assert whole[1..] == part[1..] + "/" + rest;
      SplitFirst(part[1..], rest);
      assert [part[0]] + part[1..] == part;
    }
  }

  /** A relative path written with slashes reads back as the same components. */
  lemma {:induction false} SplitJoin(parts: Path)
    requires parts != [] && forall p | p in parts :: '/' !in p
    ensures Split(Join(parts)) == parts
  {
    if |parts| == 1 {
      SplitWhole(parts[0]);
    } else {
      SplitJoin(parts[1..]);
      SplitFirst(parts[0], Join(parts[1..]));
      assert [parts[0]] + parts[1..] == parts;
    }
  }

  predicate SafeName(name: string)
  {
    && name != "" && name[0] != '/' && '\\' !in name
    && forall part | part in Split(name) :: part !in {"", ".", ".."}
  }

  /** `_validated_member_parts`. */
  function Parts(m: Member): Path { Split(m.name) }

  /** Everything the validator checks on one member alone. */
  predicate Legal(m: Member)
  {
    && SafeName(m.name) && m.size >= 0 && !m.sparse
    && match m.kind
       case Directory => OwnerBits(m.mode) == OWNER_ALL
       case Regular => true
       case Unsupported => false
  }

  // ----- Conflicts between members -----

  predicate ProperPrefix(p: Path, q: Path) { p < q }

  /** No path repeats, and nothing is below a regular file. */
  predicate ConflictFree(members: seq<Member>)
  {
    && (forall i, j | 0 <= i < j < |members| :: Parts(members[i]) != Parts(members[j]))
    && (forall i, j | 0 <= i < |members| && 0 <= j < |members| && members[i].kind.Regular? ::
         !ProperPrefix(Parts(members[i]), Parts(members[j])))
  }

  predicate AllLegal(members: seq<Member>)
  {
    forall i | 0 <= i < |members| :: Legal(members[i])
  }

  // ----- The trie -----

  class ArchiveNode {
    var kind: Option<MemberType>
    var children: map<string, ArchiveNode>

    constructor ()
      ensures kind == None && children == map[]
    {
      kind, children := None, map[];
    }
  }

  /** `nodes` names every node of the trie by its path. */
  ghost predicate Trie(nodes: map<Path, ArchiveNode>)
    reads nodes.Values
  {
    && [] in nodes && (forall p {:trigger HasParent(nodes.Keys, p)} | p in nodes :: HasParent(nodes.Keys, p))
    && (forall p, q | p in nodes && q in nodes && p != q :: nodes[p] != nodes[q])
    && (forall p, c | p in nodes :: Linked(nodes, p, c))
  }

  predicate HasParent(paths: set<Path>, p: Path)
  {
    p == [] || p[..|p| - 1] in paths
  }

  ghost predicate Linked(nodes: map<Path, ArchiveNode>, p: Path, c: string)
    requires p in nodes
    reads nodes.Values
  {
    && (c in nodes[p].children <==> p + [c] in nodes)
    && (c in nodes[p].children ==> nodes[p].children[c] == nodes[p + [c]])
  }

  /** `node.descendants().setdefault(component, _ArchiveNode())`. */
  method Child(node: ArchiveNode, component: string, ghost nodes: map<Path, ArchiveNode>, ghost p: Path)
    returns (child: ArchiveNode, ghost more: map<Path, ArchiveNode>)
    requires Trie(nodes) && p in nodes && nodes[p] == node
    modifies node`children
    ensures Trie(more) && more.Keys == nodes.Keys + {p + [component]} && more[p + [component]] == child
    ensures forall q | q in nodes :: more[q] == nodes[q]
    ensures p + [component] !in nodes ==> fresh(child) && child.kind == None && child.children == map[]
    ensures more.Values <= nodes.Values + {child}
  {
    if component in node.children {
      assert Linked(nodes, p, component);
      child, more := node.children[component], nodes;
    } else {
      assert Linked(nodes, p, component);
      child := new ArchiveNode();
      node.children := node.children[component := child];
      more := nodes[p + [component] := child];
      LastComponent(p, component);
      forall q, c | q in more ensures Linked(more, q, c) {
        LastComponent(q, c);
        assert q + [c] in nodes ==> HasParent(nodes.Keys, q + [c]);
        if q in nodes { assert old(Linked(nodes, q, c)); }
      }
      forall q | q in more ensures HasParent(more.Keys, q) {
        if q in nodes { assert HasParent(nodes.Keys, q); }
      }
    }
  }

  lemma LastComponent(p: Path, c: string)
    ensures (p + [c])[..|p + [c]| - 1] == p && (p + [c])[|p + [c]| - 1] == c
  {
  }

  // ----- What the trie knows of the members seen so far -----

  /** Some of the first `n` members is at `p` or below it. */
  ghost predicate Seen(members: seq<Member>, n: nat, p: Path)
    requires n <= |members|
  {
    exists i | 0 <= i < n :: p <= Parts(members[i])
  }

  ghost predicate Declared(members: seq<Member>, n: nat, p: Path)
    requires n <= |members|
  {
    exists i | 0 <= i < n :: Parts(members[i]) == p
  }

  /** The trie is exactly the paths of the first `n` members and their ancestors, and a node has a
      kind exactly when it is a member's own. */
  ghost predicate Holds(nodes: map<Path, ArchiveNode>, members: seq<Member>, n: nat)
    requires n <= |members|
    reads nodes.Values
  {
    Trie(nodes) && PathsHold(nodes.Keys, members, n) && KindsHold(Kinds(nodes), members, n)
  }

  /** Member `n` is compatible with every earlier one. */
  ghost predicate Compatible(members: seq<Member>, n: nat)
    requires n < |members|
  {
    forall i | 0 <= i < n ::
      && Parts(members[i]) != Parts(members[n])
      && (members[i].kind.Regular? ==> !ProperPrefix(Parts(members[i]), Parts(members[n])))
      && (members[n].kind.Regular? ==> !ProperPrefix(Parts(members[n]), Parts(members[i])))
  }

  /** `nodes` grown by the first `k` ancestors of `parts`, kinds untouched. */
  ghost predicate Grown(before: map<Path, ArchiveNode>, kinds: map<Path, Option<MemberType>>,
                        nodes: map<Path, ArchiveNode>, parts: Path, k: nat)
    requires k <= |parts|
    reads nodes.Values
  {
    && nodes.Keys == before.Keys + Ancestors(parts, k)
    && (forall p | p in before :: nodes[p] == before[p] && p in kinds && nodes[p].kind == kinds[p])
    && (forall p | p in nodes && p !in before :: nodes[p].kind == None)
  }

  ghost function Kinds(nodes: map<Path, ArchiveNode>): map<Path, Option<MemberType>>
    reads nodes.Values
  {
    map p | p in nodes :: nodes[p].kind
  }

  /** A path's ancestors of at most `k` components, from the root. */
  function Ancestors(parts: Path, k: nat): set<Path>
    requires k <= |parts|
  {
    if k == 0 then {[]} else Ancestors(parts, k - 1) + {parts[..k]}
  }

  lemma {:induction false} AncestorsArePrefixes(parts: Path, k: nat)
    requires k <= |parts|
    ensures forall p :: p in Ancestors(parts, k) <==> |p| <= k && p <= parts
  {
    if k > 0 {
      AncestorsArePrefixes(parts, k - 1);
      forall p | |p| == k && p <= parts ensures p == parts[..k] {}
    }
  }

  lemma NextAncestor(parts: Path, k: nat)
    requires k < |parts|
    ensures Ancestors(parts, k + 1) == Ancestors(parts, k) + {parts[..k + 1]}
  {
  }

  /** One more component on the way down. */
  method Step(node: ArchiveNode, parts: Path, k: nat, ghost before: map<Path, ArchiveNode>,
              ghost kinds: map<Path, Option<MemberType>>, ghost nodes: map<Path, ArchiveNode>)
    returns (child: ArchiveNode, ghost more: map<Path, ArchiveNode>)
    requires k < |parts| && Trie(nodes) && Grown(before, kinds, nodes, parts, k)
    requires parts[..k] in nodes && nodes[parts[..k]] == node
    modifies node`children
    ensures Trie(more) && Grown(before, kinds, more, parts, k + 1)
    ensures parts[..k + 1] in more && more[parts[..k + 1]] == child
    ensures parts[..k + 1] !in nodes ==> child.children == map[]
    ensures forall o | o in more.Values :: o in nodes.Values || fresh(o)
  {
    hide Trie, Ancestors;
    assert parts[..k] + [parts[k]] == parts[..k + 1];
    assert Ancestors(parts, k + 1) == Ancestors(parts, k) + {parts[..k + 1]} by { NextAncestor(parts, k); }
    child, more := Child(node, parts[k], nodes, parts[..k]);
    assert more.Keys == before.Keys + Ancestors(parts, k + 1);
    assert forall p | p in before :: p in nodes;
    assert forall p | p in nodes :: more[p] == nodes[p] && more[p].kind == old(nodes[p].kind);
    assert forall p | p in more && p !in nodes :: more[p].kind == None;
  }

  /** A file stands where an ancestor directory is needed. */
  ghost predicate FileAbove(kinds: map<Path, Option<MemberType>>, parts: Path)
  {
    exists p | p in kinds :: ProperPrefix(p, parts) && kinds[p] == Some(Regular)
  }

  ghost predicate NoFileAbove(kinds: map<Path, Option<MemberType>>, parts: Path, k: nat)
  {
    forall p | p in kinds && |p| <= k && p <= parts :: kinds[p] != Some(Regular)
  }

  lemma FirstFile(kinds: map<Path, Option<MemberType>>, parts: Path, k: nat)
    requires k < |parts| && NoFileAbove(kinds, parts, k)
    ensures parts[..k + 1] in kinds && kinds[parts[..k + 1]] == Some(Regular) && k + 1 < |parts|
        ==> FileAbove(kinds, parts)
    ensures (parts[..k + 1] in kinds ==> kinds[parts[..k + 1]] != Some(Regular)) ==> NoFileAbove(kinds, parts, k + 1)
    ensures k + 1 == |parts| ==> !FileAbove(kinds, parts)
  {
    forall p | |p| == k + 1 && p <= parts ensures p == parts[..k + 1] {}
  }

  /** The walk from the root to a member's parent, creating what is missing. */
  method Descend(root: ArchiveNode, parts: Path, ghost nodes: map<Path, ArchiveNode>,
                 ghost kinds: map<Path, Option<MemberType>>)
    returns (blocked: bool, node: ArchiveNode, ghost more: map<Path, ArchiveNode>)
    requires Trie(nodes) && nodes[[]] == root && parts != []
    requires kinds == Kinds(nodes) && kinds[[]] == None
    modifies nodes.Values
    ensures blocked <==> FileAbove(kinds, parts)
    ensures !blocked ==>
      && Trie(more) && Grown(nodes, kinds, more, parts, |parts| - 1)
      && parts[..|parts| - 1] in more && more[parts[..|parts| - 1]] == node
      && forall o | o in more.Values :: o in nodes.Values || fresh(o)
  {
    node, more, blocked := root, nodes, false;
    var k := 0;
    assert nodes.Keys + Ancestors(parts, 0) == nodes.Keys;
    hide Trie;
    while k < |parts| - 1
      invariant k <= |parts| - 1
      invariant Trie(more) && Grown(nodes, kinds, more, parts, k)
      invariant parts[..k] in more && more[parts[..k]] == node
      invariant forall o | o in more.Values :: o in nodes.Values || fresh(o)
      invariant NoFileAbove(kinds, parts, k)
    {
      FirstFile(kinds, parts, k);
      ghost var before := more;
      node, more := Step(node, parts, k, nodes, kinds, more);
      if node.kind == Some(Regular) {
        return true, node, more;
      }
      k := k + 1;
    }
    FirstFile(kinds, parts, k);
  }

  // ----- What the walk finds, in terms of the members -----

  lemma FileAboveIsMember(kinds: map<Path, Option<MemberType>>, members: seq<Member>, n: nat, parts: Path)
    requires n <= |members| && KindsHold(kinds, members, n)
    ensures FileAbove(kinds, parts) <==> UnderFile(members, n, parts)
  {
    if FileAbove(kinds, parts) {
      var p :| p in kinds && ProperPrefix(p, parts) && kinds[p] == Some(Regular);
      assert Declared(members, n, p);
    }
  }

  ghost predicate UnderFile(members: seq<Member>, n: nat, parts: Path)
    requires n <= |members|
  {
    exists i | 0 <= i < n :: members[i].kind.Regular? && ProperPrefix(Parts(members[i]), parts)
  }

  lemma SeenAbove(members: seq<Member>, n: nat, p: Path, i: nat) returns (c: string)
    requires i < n <= |members| && ProperPrefix(p, Parts(members[i]))
    ensures Seen(members, n, p + [c])
  {
    c := Parts(members[i])[|p|];
    assert p + [c] == Parts(members[i])[..|p| + 1];
  }

  lemma LinkedAt(nodes: map<Path, ArchiveNode>, p: Path, c: string)
    requires Trie(nodes) && p in nodes
    ensures Linked(nodes, p, c)
  {
  }

  ghost predicate Below(members: seq<Member>, n: nat, p: Path)
    requires n <= |members|
  {
    exists i | 0 <= i < n :: ProperPrefix(p, Parts(members[i]))
  }

  /** A member's own node has children exactly when some earlier member is below it. */
  lemma ChildrenAreMembers(nodes: map<Path, ArchiveNode>, paths: set<Path>, members: seq<Member>, n: nat, p: Path)
    requires n <= |members| && Trie(nodes) && p in nodes
    requires PathsHold(paths, members, n) && nodes.Keys == paths + Ancestors(p, |p|)
    ensures nodes[p].children != map[] <==> Below(members, n, p)
  {
    hide Trie, Seen, Declared, Ancestors;
    AncestorsArePrefixes(p, |p|);
    if nodes[p].children != map[] {
      var c :| c in nodes[p].children;
      LinkedAt(nodes, p, c);
      assert |p + [c]| == |p| + 1;
      SeenBelow(members, n, p, c);
    }
    if Below(members, n, p) {
      var i :| 0 <= i < n && ProperPrefix(p, Parts(members[i]));
      var c := SeenAbove(members, n, p, i);
      LinkedAt(nodes, p, c);
    }
  }

  lemma SeenBelow(members: seq<Member>, n: nat, p: Path, c: string)
    requires n <= |members| && Seen(members, n, p + [c])
    ensures Below(members, n, p)
  {
    var i :| 0 <= i < n && p + [c] <= Parts(members[i]);
    assert p <= p + [c];
    assert ProperPrefix(p, Parts(members[i]));
  }

  lemma SeenNext(members: seq<Member>, n: nat, p: Path)
    requires n < |members|
    ensures Seen(members, n + 1, p) <==> Seen(members, n, p) || p <= Parts(members[n])
    ensures Declared(members, n + 1, p) <==> Declared(members, n, p) || p == Parts(members[n])
  {
  }

  /** Exactly the members seen so far have their kinds recorded. */
  ghost predicate KindsHold(kinds: map<Path, Option<MemberType>>, members: seq<Member>, n: nat)
    requires n <= |members|
  {
    && (forall i | 0 <= i < n :: Parts(members[i]) in kinds && kinds[Parts(members[i])] == Some(members[i].kind))
    && (forall p | p in kinds && kinds[p].Some? :: Declared(members, n, p))
  }

  ghost predicate PathsHold(paths: set<Path>, members: seq<Member>, n: nat)
    requires n <= |members|
  {
    forall p :: p in paths <==> p == [] || Seen(members, n, p)
  }

  lemma PathsNext(paths: set<Path>, members: seq<Member>, n: nat)
    requires n < |members| && PathsHold(paths, members, n)
    ensures PathsHold(paths + Ancestors(Parts(members[n]), |Parts(members[n])|), members, n + 1)
  {
    hide Seen, Ancestors;
    var parts := Parts(members[n]);
    AncestorsArePrefixes(parts, |parts|);
    forall p ensures p in paths + Ancestors(parts, |parts|) <==> p == [] || Seen(members, n + 1, p) {
      SeenNext(members, n, p);
    }
  }

  lemma KindsNext(kinds: map<Path, Option<MemberType>>, more: map<Path, Option<MemberType>>,
                  members: seq<Member>, n: nat)
    requires n < |members| && KindsHold(kinds, members, n) && !Declared(members, n, Parts(members[n]))
    requires kinds.Keys <= more.Keys && Parts(members[n]) in more
    requires forall p | p in more ::
      more[p] == if p == Parts(members[n]) then Some(members[n].kind) else if p in kinds then kinds[p] else None
    ensures KindsHold(more, members, n + 1)
  {
    forall p | p in more && more[p].Some? ensures Declared(members, n + 1, p) { SeenNext(members, n, p); }
  }

  method SetKind(leaf: ArchiveNode, kind: MemberType, ghost nodes: map<Path, ArchiveNode>, ghost p: Path)
    requires Trie(nodes) && p in nodes && nodes[p] == leaf
    modifies leaf`kind
    ensures Trie(nodes)
    ensures forall q | q in nodes :: nodes[q].kind == if q == p then Some(kind) else old(nodes[q].kind)
  {
    leaf.kind := Some(kind);
    forall q, c | q in nodes ensures Linked(nodes, q, c) { assert old(Linked(nodes, q, c)); }
  }

  lemma CompatibleMeans(members: seq<Member>, n: nat)
    requires n < |members| && !Declared(members, n, Parts(members[n]))
    ensures Compatible(members, n) <==>
      !UnderFile(members, n, Parts(members[n])) && (members[n].kind.Regular? ==> !Below(members, n, Parts(members[n])))
  {
  }

  /** One member's turn: descend, then place it. */
  method Insert(root: ArchiveNode, members: seq<Member>, n: nat, ghost nodes: map<Path, ArchiveNode>)
    returns (accepted: bool, ghost more: map<Path, ArchiveNode>)
    requires n < |members| && Holds(nodes, members, n) && [] in nodes && nodes[[]] == root && nodes[[]].kind == None
    requires !Declared(members, n, Parts(members[n]))
    modifies nodes.Values
    ensures accepted <==> Compatible(members, n)
    ensures accepted ==>
      Holds(more, members, n + 1) && [] in more && more[[]] == root && more[[]].kind == None
    ensures accepted ==> forall o | o in more.Values :: o in nodes.Values || fresh(o)
  {
    hide Compatible, PathsHold, KindsHold, FileAbove, UnderFile, Below, Declared, Trie;
    var parts := Parts(members[n]);
    ghost var kinds := Kinds(nodes);
    CompatibleMeans(members, n);
    FileAboveIsMember(kinds, members, n, parts);
    more := nodes;
    var blocked, node;
    blocked, node, more := Descend(root, parts, nodes, kinds);
    if blocked {
      return false, more;
    }
    var leaf;
    leaf, more := Step(node, parts, |parts| - 1, nodes, kinds, more);
    assert parts[..|parts|] == parts;
    ChildrenAreMembers(more, nodes.Keys, members, n, parts);
    if members[n].kind == Regular && leaf.children != map[] {
      return false, more;
    }
    SetKind(leaf, members[n].kind, more, parts);
    PathsNext(nodes.Keys, members, n);
    KindsNext(kinds, Kinds(more), members, n);
    return true, more;
  }

  lemma ConflictFreeNext(members: seq<Member>, n: nat)
    requires n < |members|
    ensures ConflictFree(members[..n + 1]) <==> ConflictFree(members[..n]) && Compatible(members, n)
  {
    hide Split;
    var longer, shorter := members[..n + 1], members[..n];
    assert forall i | 0 <= i < n :: shorter[i] == longer[i] == members[i];
    assert longer[n] == members[n];
    if ConflictFree(longer) {
      forall i | 0 <= i < n ensures Parts(members[i]) != Parts(members[n]) {
        assert Parts(longer[i]) != Parts(longer[n]);
      }
      forall i | 0 <= i < n && members[i].kind.Regular? ensures !ProperPrefix(Parts(members[i]), Parts(members[n])) {
        assert !ProperPrefix(Parts(longer[i]), Parts(longer[n]));
      }
      forall i | 0 <= i < n && members[n].kind.Regular? ensures !ProperPrefix(Parts(members[n]), Parts(members[i])) {
        assert !ProperPrefix(Parts(longer[n]), Parts(longer[i]));
      }
    }
  }

  lemma {:induction false} ConflictFreeSoFar(members: seq<Member>, n: nat)
    requires n <= |members| && ConflictFree(members)
    ensures ConflictFree(members[..n])
    decreases |members| - n
  {
    if n == |members| {
      assert members[..n] == members;
    } else {
      ConflictFreeSoFar(members, n + 1);
      ConflictFreeNext(members, n);
    }
  }

  /** The checks on one member by itself, in the validator's order. */
  method CheckMember(m: Member, repeated: bool) returns (legal: bool)
    ensures legal <==> Legal(m) && !repeated
  {
    if !SafeName(m.name) {
      return false;
    }
    if repeated {
      return false;
    }
    if m.size < 0 || m.sparse {
      return false;
    }
    match m.kind
    case Directory => return OwnerBits(m.mode) == OWNER_ALL;
    case Regular => return true;
    case Unsupported => return false;
  }

  /** `seen` holds the paths of the first `n` members. */
  ghost predicate Recorded(seen: set<Path>, members: seq<Member>, n: nat)
    requires n <= |members|
  {
    forall p :: p in seen <==> Declared(members, n, p)
  }

  /** One member: its own checks, then its place in the trie. */
  method Admit(root: ArchiveNode, members: seq<Member>, n: nat, seen: set<Path>, ghost nodes: map<Path, ArchiveNode>)
    returns (accepted: bool, ghost more: map<Path, ArchiveNode>)
    requires n < |members| && Holds(nodes, members, n) && [] in nodes && nodes[[]] == root && nodes[[]].kind == None
    requires Recorded(seen, members, n)
    modifies nodes.Values
    ensures accepted <==> Legal(members[n]) && Compatible(members, n)
    ensures accepted ==>
      && Holds(more, members, n + 1) && [] in more && more[[]] == root && more[[]].kind == None
      && forall o | o in more.Values :: o in nodes.Values || fresh(o)
    ensures Recorded(seen + {Parts(members[n])}, members, n + 1)
  {
    hide Holds, Compatible, Legal, Split, Declared;
    var repeated := Parts(members[n]) in seen;
    assert repeated <==> Declared(members, n, Parts(members[n]));
    forall p ensures p in seen + {Parts(members[n])} <==> Declared(members, n + 1, p) { SeenNext(members, n, p); }
    more := nodes;
    accepted := CheckMember(members[n], repeated);
    if accepted {
      accepted, more := Insert(root, members, n, nodes);
    } else if repeated {
      RepeatIncompatible(members, n);
    }
  }

  lemma RepeatIncompatible(members: seq<Member>, n: nat)
    requires n < |members| && Declared(members, n, Parts(members[n]))
    ensures !Compatible(members, n)
  {
    var i :| 0 <= i < n && Parts(members[i]) == Parts(members[n]);
  }

  lemma PrefixRejects(members: seq<Member>, n: nat)
    requires n < |members| && !(Legal(members[n]) && Compatible(members, n))
    ensures !(AllLegal(members) && ConflictFree(members))
  {
    if ConflictFree(members) {
      ConflictFreeSoFar(members, n + 1);
      ConflictFreeNext(members, n);
    }
  }

  /** The first `n` members are in, and nothing so far speaks against the list. */
  ghost predicate TakenIn(root: ArchiveNode, members: seq<Member>, n: nat, seen: set<Path>,
                           nodes: map<Path, ArchiveNode>)
    requires n <= |members|
    reads nodes.Values
  {
    && AllLegal(members[..n]) && ConflictFree(members[..n]) && Recorded(seen, members, n)
    && Holds(nodes, members, n) && [] in nodes && nodes[[]] == root && nodes[[]].kind == None
  }

  method AdmitNext(root: ArchiveNode, members: seq<Member>, n: nat, seen: set<Path>,
                   ghost nodes: map<Path, ArchiveNode>)
    returns (accepted: bool, ghost more: map<Path, ArchiveNode>)
    requires n < |members| && TakenIn(root, members, n, seen, nodes)
    modifies nodes.Values
    ensures accepted ==> TakenIn(root, members, n + 1, seen + {Parts(members[n])}, more)
    ensures accepted ==> forall o | o in more.Values :: o in nodes.Values || fresh(o)
    ensures !accepted ==> !(AllLegal(members) && ConflictFree(members))
  {
    hide Holds, Compatible, AllLegal, Legal, Split, Recorded, ConflictFree;
    AllLegalNext(members, n);
    ConflictFreeNext(members, n);
    accepted, more := Admit(root, members, n, seen, nodes);
    if !accepted { PrefixRejects(members, n); }
  }

  /** `_validate_archive_topology`: accepts exactly the legal, conflict-free lists, in any order. */
  method ValidateTopology(members: seq<Member>) returns (accepted: bool)
    ensures accepted <==> AllLegal(members) && ConflictFree(members)
  {
    hide AllLegal, ConflictFree, Holds, Recorded;
    var root := new ArchiveNode();
    ghost var nodes := map[[] := root];
    var seen: set<Path> := {};
    StartHolds(nodes, members);
    for n := 0 to |members|
      invariant TakenIn(root, members, n, seen, nodes) && forall o | o in nodes.Values :: fresh(o)
    {
      accepted, nodes := AdmitNext(root, members, n, seen, nodes);
      if !accepted { return; }
      seen := seen + {Parts(members[n])};
    }
    assert members[..|members|] == members;
    return true;
  }

  lemma AllLegalNext(members: seq<Member>, n: nat)
    requires n < |members|
    ensures AllLegal(members[..n + 1]) <==> AllLegal(members[..n]) && Legal(members[n])
  {
    hide Legal;
    assert members[..n + 1] == members[..n] + [members[n]];
    if AllLegal(members[..n + 1]) { assert forall i | 0 <= i < n :: members[..n][i] == members[..n + 1][i]; }
  }

  lemma StartHolds(nodes: map<Path, ArchiveNode>, members: seq<Member>)
    requires nodes.Keys == {[]} && nodes[[]].kind == None && nodes[[]].children == map[]
    ensures Holds(nodes, members, 0) && AllLegal(members[..0]) && ConflictFree(members[..0])
    ensures Recorded({}, members, 0)
  {
    forall p, c | p in nodes ensures Linked(nodes, p, c) { assert |[c]| == 1; }
  }

  // ----- Reading -----

  const IO_CHUNK := 65_536

  /** The archive holds as many bytes as the header promises. */
  predicate Complete(m: Member)
  {
    m.kind.Regular? ==> m.size <= |m.stored|
  }

  /** Reads a member through in chunks. */
  method ReadThrough(m: Member) returns (content: Option<seq<Byte>>)
    requires m.size >= 0
    ensures content.Some? <==> m.size <= |m.stored|
    ensures content.Some? ==> content.value == m.stored[..m.size]
  {
    var sofar, remaining := [], m.size;
    while remaining > 0
      invariant 0 <= remaining <= m.size && |sofar| == m.size - remaining <= |m.stored|
      invariant sofar == m.stored[..|sofar|]
    {
      var wanted := if remaining < IO_CHUNK then remaining else IO_CHUNK;
      var available := |m.stored| - |sofar|;
      var chunk := m.stored[|sofar|..|sofar| + (if wanted < available then wanted else available)];
      if chunk == [] {
        return None;
      }
      sofar := sofar + chunk;
      remaining := remaining - |chunk|;
    }
    return Some(sofar);
  }

  /** `_validate_runner_archive_file`. */
  predicate Acceptable(members: seq<Member>)
  {
    && AllLegal(members) && ConflictFree(members)
    && forall i | 0 <= i < |members| :: Complete(members[i])
  }

  method ValidateArchive(members: seq<Member>) returns (accepted: bool)
    ensures accepted <==> Acceptable(members)
  {
    accepted := ValidateTopology(members);
    if !accepted {
      return false;
    }
    for i := 0 to |members|
      invariant forall j | 0 <= j < i :: Complete(members[j])
    {
      if members[i].kind.Regular? {
        assert Legal(members[i]);
        var content := ReadThrough(members[i]);
        if content.None? {
          assert !Complete(members[i]);
          return false;
        }
      }
    }
  }
}
