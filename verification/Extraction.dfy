/** Extracting an accepted archive into an empty directory: it never meets an obstacle, and what it
    leaves is determined by the members alone. */
module Extraction {
  import opened Prelude
  import opened Archives

  datatype FsNode = Dir(mode: nat) | File(mode: nat, content: seq<Byte>)

  type Tree = map<Path, FsNode>

  /** What extraction makes of every directory, explicit or implied. */
  const PRIVATE := Dir(OWNER_ALL)

  /** The regular file a member becomes. */
  function FileOf(m: Member): FsNode
    requires 0 <= m.size <= |m.stored|
  {
    File(OwnerBits(m.mode), m.stored[..m.size])
  }

  ghost predicate RegularAt(members: seq<Member>, n: nat, p: Path)
    requires n <= |members|
  {
    exists i | 0 <= i < n :: members[i].kind.Regular? && Parts(members[i]) == p
  }

  /** The tree holds exactly the first `n` members and the directories above them. */
  ghost predicate IsExtraction(members: seq<Member>, n: nat, tree: Tree)
    requires n <= |members|
  {
    && (forall p :: p in tree <==> p == [] || Seen(members, n, p))
    && (forall i | 0 <= i < n && members[i].kind.Regular? ::
         Parts(members[i]) in tree && Complete(members[i]) && members[i].size >= 0
         && tree[Parts(members[i])] == FileOf(members[i]))
    && (forall p | p in tree && !RegularAt(members, n, p) :: tree[p] == PRIVATE)
  }

  /** The members determine the tree. */
  lemma ExtractionIsUnique(members: seq<Member>, a: Tree, b: Tree)
    requires IsExtraction(members, |members|, a) && IsExtraction(members, |members|, b)
    ensures a == b
  {
    hide Seen, Split;
    forall p | p in a ensures p in b && a[p] == b[p] {
      if RegularAt(members, |members|, p) {
        var i :| 0 <= i < |members| && members[i].kind.Regular? && Parts(members[i]) == p;
      }
    }
    assert a.Keys == b.Keys;
  }

  /** The order of the members does not matter. */
  lemma OrderIsIrrelevant(members: seq<Member>, shuffled: seq<Member>, tree: Tree)
    requires multiset(shuffled) == multiset(members) && IsExtraction(members, |members|, tree)
    ensures IsExtraction(shuffled, |shuffled|, tree)
  {
    SameSeen(members, shuffled);
    SameSeen(shuffled, members);
    forall i | 0 <= i < |shuffled| ensures exists j | 0 <= j < |members| :: members[j] == shuffled[i] {
      assert shuffled[i] in multiset(shuffled);
      assert shuffled[i] in members;
    }
    forall p | p in tree && !RegularAt(shuffled, |shuffled|, p) ensures tree[p] == PRIVATE {
      if RegularAt(members, |members|, p) { SameRegular(members, shuffled, p); }
    }
  }

  lemma SameSeen(members: seq<Member>, shuffled: seq<Member>)
    requires multiset(shuffled) == multiset(members)
    ensures forall p | Seen(members, |members|, p) :: Seen(shuffled, |shuffled|, p)
  {
    forall p | Seen(members, |members|, p) ensures Seen(shuffled, |shuffled|, p) {
      var i :| 0 <= i < |members| && p <= Parts(members[i]);
      assert members[i] in multiset(members);
      var j :| 0 <= j < |shuffled| && shuffled[j] == members[i];
    }
  }

  lemma SameRegular(members: seq<Member>, shuffled: seq<Member>, p: Path)
    requires multiset(shuffled) == multiset(members) && RegularAt(members, |members|, p)
    ensures RegularAt(shuffled, |shuffled|, p)
  {
    var i :| 0 <= i < |members| && members[i].kind.Regular? && Parts(members[i]) == p;
    assert members[i] in multiset(members);
    var j :| 0 <= j < |shuffled| && shuffled[j] == members[i];
  }

  // ----- The destination -----

  /** `tree` with the first `k` ancestors of a path as private directories. */
  function WithAncestors(tree: Tree, parts: Path, k: nat): (r: Tree)
    requires k <= |parts|
  {
    if k == 0 then tree else WithAncestors(tree, parts, k - 1)[parts[..k] := PRIVATE]
  }

  /** No regular file on the way down. */
  ghost predicate Clear(tree: Tree, parts: Path, k: nat)
    requires k <= |parts|
  {
    forall j | 0 < j <= k :: parts[..j] in tree ==> tree[parts[..j]].Dir?
  }

  lemma {:induction false} AncestorsPlaced(tree: Tree, parts: Path, k: nat)
    requires k <= |parts|
    ensures forall p :: p in WithAncestors(tree, parts, k) <==> p in tree || (0 < |p| <= k && p <= parts)
    ensures forall p | p in WithAncestors(tree, parts, k) ::
      WithAncestors(tree, parts, k)[p] == if 0 < |p| <= k && p <= parts then PRIVATE else tree[p]
  {
    if k > 0 {
      AncestorsPlaced(tree, parts, k - 1);
      forall p | |p| == k && p <= parts ensures p == parts[..k] {}
    }
  }

  class Destination {
    var tree: Tree

    /** An empty directory only its owner can use. */
    constructor ()
      ensures tree == map[[] := PRIVATE]
    {
      tree := map[[] := PRIVATE];
    }

    /** `_ensure_extraction_directory`. */
    method EnsureDirectory(parts: Path) returns (ok: bool)
      modifies this
      ensures ok <==> Clear(old(tree), parts, |parts|)
      ensures ok ==> tree == WithAncestors(old(tree), parts, |parts|)
    {
      for k := 0 to |parts|
        invariant tree == WithAncestors(old(tree), parts, k) && Clear(old(tree), parts, k)
      {
        var current := parts[..k + 1];
        AncestorsPlaced(old(tree), parts, k);
        if current in tree && !tree[current].Dir? {
          assert current in old(tree) && !old(tree)[current].Dir?;
          return false;
        }
        tree := tree[current := PRIVATE];
      }
      return true;
    }

    /** The exclusive create, the chunked copy, and the final mode. */
    method CreateFile(m: Member) returns (ok: bool)
      requires 0 <= m.size
      modifies this
      ensures ok <==> Parts(m) !in old(tree) && m.size <= |m.stored|
      ensures ok ==> tree == old(tree)[Parts(m) := FileOf(m)]
    {
      if Parts(m) in tree {
        return false;
      }
      var content := ReadThrough(m);
      if content.None? {
        return false;
      }
      tree := tree[Parts(m) := File(OwnerBits(m.mode), content.value)];
      return true;
    }

    /** One member: its parent directories, then itself. */
    method ExtractMember(m: Member) returns (ok: bool)
      requires Legal(m)
      modifies this
      ensures Fits(old(tree), m) ==> ok && tree == WithMember(old(tree), m)
    {
      var parts := Parts(m);
      ClearForMember(tree, m);
      ok := EnsureDirectory(parts[..|parts| - 1]);
      if !ok { return; }
      if m.kind.Directory? {
        ok := EnsureDirectory(parts);
      } else {
        ok := CreateFile(m);
      }
    }
  }

  /** Nothing in the tree is in the member's way. */
  ghost predicate Fits(tree: Tree, m: Member)
  {
    var parts := Parts(m);
    && Clear(tree, parts[..|parts| - 1], |parts| - 1)
    && (m.kind.Directory? ==> parts in tree ==> tree[parts].Dir?)
    && (m.kind.Regular? ==> parts !in tree && 0 <= m.size <= |m.stored|)
  }

  function WithMember(tree: Tree, m: Member): Tree
    requires m.kind.Regular? ==> 0 <= m.size <= |m.stored|
  {
    var parts := Parts(m);
    var parents := WithAncestors(tree, parts[..|parts| - 1], |parts| - 1);
    if m.kind.Regular? then parents[parts := FileOf(m)]
    else WithAncestors(parents, parts, |parts|)
  }

  /** Once its parents stand, nothing is in the way of the member itself. */
  lemma ClearForMember(tree: Tree, m: Member)
    ensures Fits(tree, m) ==>
      var parts := Parts(m);
      var parents := WithAncestors(tree, parts[..|parts| - 1], |parts| - 1);
      && (m.kind.Directory? ==> Clear(parents, parts, |parts|))
      && (m.kind.Regular? ==> parts !in parents)
  {
    hide Split;
    var parts := Parts(m);
    AncestorsPlaced(tree, parts[..|parts| - 1], |parts| - 1);
    var parents := WithAncestors(tree, parts[..|parts| - 1], |parts| - 1);
    if Fits(tree, m) && m.kind.Directory? {
      assert parts[..|parts|] == parts;
      forall j | 0 < j <= |parts| && parts[..j] in parents ensures parents[parts[..j]].Dir? {
        assert j < |parts| ==> parts[..j] <= parts[..|parts| - 1];
      }
    }
  }

  /** The tree `WithMember` makes: one member's ancestors and the member, over what was there. */
  lemma MemberPlaced(tree: Tree, m: Member)
    requires (m.kind.Regular? ==> 0 <= m.size <= |m.stored|)
    ensures forall p :: p in WithMember(tree, m) <==> p in tree || (p != [] && p <= Parts(m))
    ensures forall p | p in WithMember(tree, m) ::
      WithMember(tree, m)[p] ==
        if m.kind.Regular? && p == Parts(m) then FileOf(m)
        else if p != [] && p <= Parts(m) then PRIVATE
        else tree[p]
  {
    hide Split, WithAncestors;
    var parts := Parts(m);
    AncestorsPlaced(tree, parts[..|parts| - 1], |parts| - 1);
    var parents := WithAncestors(tree, parts[..|parts| - 1], |parts| - 1);
    AncestorsPlaced(parents, parts, |parts|);
    forall p: Path ensures p <= parts[..|parts| - 1] <==> p <= parts && |p| < |parts| {
      if p <= parts && |p| < |parts| { assert p == parts[..|p|]; }
      if p <= parts[..|parts| - 1] { assert p == parts[..|p|]; }
    }
    forall p: Path | p <= parts && |p| == |parts| ensures p == parts { assert p == parts[..|p|]; }
  }

  lemma FileIsMember(members: seq<Member>, n: nat, tree: Tree, p: Path)
    requires n <= |members| && IsExtraction(members, n, tree) && p in tree && tree[p].File?
    ensures RegularAt(members, n, p)
  {
  }

  /** Conflict-freedom is what makes the next member fit. */
  lemma NextFits(members: seq<Member>, n: nat, tree: Tree)
    requires n < |members| && Acceptable(members) && IsExtraction(members, n, tree)
    ensures Fits(tree, members[n])
  {
    hide Split, Legal, IsExtraction, RegularAt;
    var parts := Parts(members[n]);
    assert Legal(members[n]) && Complete(members[n]);
    var parent := parts[..|parts| - 1];
    forall j | 0 < j <= |parent| && parent[..j] in tree ensures tree[parent[..j]].Dir? {
      assert parent[..j] == parts[..j];
      if tree[parent[..j]].File? {
        FileIsMember(members, n, tree, parent[..j]);
        FileBlocks(members, n, parent[..j]);
      }
    }
    if parts in tree && tree[parts].File? {
      FileIsMember(members, n, tree, parts);
      FileBlocks(members, n, parts);
    }
    if members[n].kind.Regular? {
      LegalSize(members[n]);
      if parts in tree { TakenPath(members, n, tree); }
    }
  }

  lemma LegalSize(m: Member)
    requires Legal(m)
    ensures m.size >= 0
  {
  }

  lemma PrefixCases(p: Path, q: Path)
    ensures p <= q ==> p == q || ProperPrefix(p, q)
  {
    if p <= q { assert p == q[..|p|]; }
  }

  /** A regular file at or above a later member's path is a conflict. */
  lemma FileBlocks(members: seq<Member>, n: nat, p: Path)
    requires n < |members| && ConflictFree(members) && RegularAt(members, n, p)
    ensures !(p <= Parts(members[n]))
  {
    hide Split;
    var i :| 0 <= i < n && members[i].kind.Regular? && Parts(members[i]) == p;
    PrefixCases(p, Parts(members[n]));
  }

  lemma TakenPath(members: seq<Member>, n: nat, tree: Tree)
    requires n < |members| && ConflictFree(members) && IsExtraction(members, n, tree)
    requires members[n].kind.Regular?
    ensures Parts(members[n]) !in tree
  {
    hide Split;
    var parts := Parts(members[n]);
    if parts in tree {
      var i :| 0 <= i < n && parts <= Parts(members[i]);
      PrefixCases(parts, Parts(members[i]));
    }
  }

  /** Extracting one more member extends the extraction. */
  lemma NextExtraction(members: seq<Member>, n: nat, tree: Tree)
    requires n < |members| && Acceptable(members) && IsExtraction(members, n, tree)
    requires members[n].kind.Regular? ==> 0 <= members[n].size <= |members[n].stored|
    ensures IsExtraction(members, n + 1, WithMember(tree, members[n]))
  {
    hide Split, Legal, WithMember, Seen;
    var m, next := members[n], WithMember(tree, members[n]);
    MemberPlaced(tree, m);
    forall p ensures p in next <==> p == [] || Seen(members, n + 1, p) { SeenNext(members, n, p); }
    forall i | 0 <= i < n && members[i].kind.Regular? ensures next[Parts(members[i])] == tree[Parts(members[i])] {
      FileBlocks(members, n, Parts(members[i])) by { assert RegularAt(members, n, Parts(members[i])); }
    }
    forall p | p in next && !RegularAt(members, n + 1, p) ensures next[p] == PRIVATE {
      RegularNext(members, n, p);
    }
  }

  lemma RegularNext(members: seq<Member>, n: nat, p: Path)
    requires n < |members|
    ensures RegularAt(members, n + 1, p) <==>
      RegularAt(members, n, p) || (members[n].kind.Regular? && p == Parts(members[n]))
  {
  }

  /** `extract_runner_archive`: an acceptable archive extracts without obstacle, to exactly its
      members and their directories. */
  method ExtractArchive(members: seq<Member>) returns (destination: Option<Destination>)
    ensures destination.Some? <==> Acceptable(members)
    ensures destination.Some? ==>
      fresh(destination.value) && IsExtraction(members, |members|, destination.value.tree)
  {
    hide Acceptable, Fits, WithMember, Legal, Split, IsExtraction;
    var accepted := ValidateArchive(members);
    if !accepted {
      return None;
    }
    var target := new Destination();
    assert IsExtraction(members, 0, target.tree) by { NothingExtracted(members); }
    for n := 0 to |members|
      invariant fresh(target) && IsExtraction(members, n, target.tree)
    {
      NextFits(members, n, target.tree);
      NextLegal(members, n);
      NextExtraction(members, n, target.tree);
      var ok := target.ExtractMember(members[n]);
      assert ok;
    }
    return Some(target);
  }

  lemma NothingExtracted(members: seq<Member>)
    ensures IsExtraction(members, 0, map[[] := PRIVATE])
  {
  }

  lemma NextLegal(members: seq<Member>, n: nat)
    requires n < |members| && Acceptable(members)
    ensures Legal(members[n])
    ensures members[n].kind.Regular? ==> 0 <= members[n].size <= |members[n].stored|
  {
    assert Legal(members[n]) && Complete(members[n]);
  }
}
