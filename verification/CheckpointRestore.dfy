/** Restoring a checkpoint: nothing is touched before the first volume deletion is started, nothing is
    restarted by recovery after it, and a clean rerun completes from wherever a fault stopped. */
module CheckpointRestore {
  import opened Prelude
  import opened Archives
  import opened Extraction
  import opened RunnerTree

  const VOLUMES := ["mariadb-data", "bugzilla-data"]

  /** What befalls a step: it succeeds; its command never starts; or it fails or is interrupted with
      `progress` of its work done. */
  datatype Outcome = Fine | NotStarted(signal: bool) | Failed(signal: bool, progress: nat, residue: string)

  // ----- Trees a fault can leave are trees the next run accepts -----

  lemma {:induction false} PartsHaveNoSlash(name: string)
    ensures forall c | c in Split(name) :: '/' !in c
  {
    if name != "" { PartsHaveNoSlash(name[1..]); }
  }

  lemma LegalComponents(m: Member)
    requires Legal(m)
    ensures forall c | c in Parts(m) :: IsComponent(c)
  {
    PartsHaveNoSlash(m.name);
  }

  /** Setting one private directory under an existing one. */
  lemma DirectoryKeepsValid(tree: Tree, p: Path)
    requires ValidTree(tree) && (p in tree ==> tree[p].Dir?)
    requires p != [] ==> p[..|p| - 1] in tree && tree[p[..|p| - 1]].Dir? && IsComponent(p[|p| - 1])
    ensures ValidTree(tree[p := PRIVATE])
  {
    var next := tree[p := PRIVATE];
    forall q | q in next ensures Contained(next, q) { assert q in tree ==> Contained(tree, q); }
  }

  lemma FileKeepsValid(tree: Tree, p: Path, file: FsNode)
    requires ValidTree(tree) && p != [] && p !in tree && file.File?
    requires p[..|p| - 1] in tree && tree[p[..|p| - 1]].Dir? && IsComponent(p[|p| - 1])
    ensures ValidTree(tree[p := file])
  {
    var next := tree[p := file];
    forall q | q in next ensures Contained(next, q) { assert q in tree ==> Contained(tree, q); }
  }

  lemma {:induction false} AncestorsKeepValid(tree: Tree, parts: Path, k: nat)
    requires ValidTree(tree) && k <= |parts| && Clear(tree, parts, k)
    requires forall c | c in parts :: IsComponent(c)
    ensures ValidTree(WithAncestors(tree, parts, k))
    ensures parts[..k] in WithAncestors(tree, parts, k) && WithAncestors(tree, parts, k)[parts[..k]].Dir?
  {
    if k > 0 {
      AncestorsKeepValid(tree, parts, k - 1);
      AncestorsPlaced(tree, parts, k - 1);
      assert parts[..k][..k - 1] == parts[..k - 1];
      assert parts[k - 1] in parts;
      hide ValidTree;
      DirectoryKeepsValid(WithAncestors(tree, parts, k - 1), parts[..k]);
    }
  }

  /** As much of one member as a fault may leave: some of its parents, or its file cut short. */
  function PartOf(tree: Tree, m: Member, progress: nat): Tree
    requires m.size <= |m.stored| || !m.kind.Regular?
  {
    var parts := Parts(m);
    var depth := if m.kind.Regular? then |parts| - 1 else |parts|;
    if progress <= depth then WithAncestors(tree, parts, progress)
    else if m.kind.Regular? then
      var cut := progress - depth;
      var size := if m.size < 0 then 0 else m.size;
      WithAncestors(tree, parts, depth)[parts := File(384, m.stored[..if cut < size then cut else size])]
    else WithAncestors(tree, parts, depth)
  }

  lemma ClearUpTo(tree: Tree, m: Member)
    requires Fits(tree, m)
    ensures m.kind.Directory? ==> Clear(tree, Parts(m), |Parts(m)|)
    ensures Clear(tree, Parts(m), |Parts(m)| - 1)
  {
    hide Split;
    var parts := Parts(m);
    var parent := parts[..|parts| - 1];
    forall j | 0 < j <= |parts| - 1 ensures parts[..j] in tree ==> tree[parts[..j]].Dir? {
      assert parent[..j] == parts[..j];
    }
    assert parts[..|parts|] == parts;
  }

  lemma ClearLess(tree: Tree, parts: Path, j: nat, k: nat)
    requires j <= k <= |parts| && Clear(tree, parts, k)
    ensures Clear(tree, parts, j)
  {
  }

  lemma FileUnderAncestors(tree: Tree, m: Member, file: FsNode)
    requires ValidTree(tree) && Fits(tree, m) && Legal(m) && m.kind.Regular? && file.File?
    ensures var parents := WithAncestors(tree, Parts(m), |Parts(m)| - 1);
      Parts(m) !in parents && ValidTree(parents[Parts(m) := file])
  {
    var parts := Parts(m);
    LegalComponents(m);
    ClearUpTo(tree, m);
    AncestorsKeepValid(tree, parts, |parts| - 1);
    AncestorsPlaced(tree, parts, |parts| - 1);
    assert parts[|parts| - 1] in parts;
    var parents := WithAncestors(tree, parts, |parts| - 1);
    hide ValidTree, Legal, Split;
    FileKeepsValid(parents, parts, file);
  }

  lemma PartIsValid(tree: Tree, m: Member, progress: nat)
    requires ValidTree(tree) && Fits(tree, m) && Legal(m)
    requires m.kind.Regular? ==> 0 <= m.size <= |m.stored|
    ensures ValidTree(PartOf(tree, m, progress))
  {
    hide ValidTree, Split;
    LegalComponents(m);
    ClearUpTo(tree, m);
    var parts := Parts(m);
    var depth := if m.kind.Regular? then |parts| - 1 else |parts|;
    assert !m.kind.Unsupported?;
    hide Legal, WithAncestors;
    var k := if progress <= depth then progress else depth;
    ClearLess(tree, parts, k, depth);
    AncestorsKeepValid(tree, parts, k);
    if progress > depth && m.kind.Regular? {
      var cut := progress - depth;
      var file := File(384, if cut < m.size then m.stored[..cut] else m.stored[..if m.size < 0 then 0 else m.size]);
      FileUnderAncestors(tree, m, file);
    }
  }

  /** A whole member is the last part of it, with its final mode. */
  lemma {:induction false} AncestorsOfParent(tree: Tree, parts: Path, k: nat)
    requires k < |parts|
    ensures WithAncestors(tree, parts[..|parts| - 1], k) == WithAncestors(tree, parts, k)
  {
    if k > 0 {
      AncestorsOfParent(tree, parts, k - 1);
      assert parts[..|parts| - 1][..k] == parts[..k];
    }
  }

  lemma MemberIsValid(tree: Tree, m: Member)
    requires ValidTree(tree) && Fits(tree, m) && Legal(m)
    requires m.kind.Regular? ==> 0 <= m.size <= |m.stored|
    ensures ValidTree(WithMember(tree, m))
  {
    hide ValidTree, Split, WithAncestors;
    LegalComponents(m);
    ClearUpTo(tree, m);
    var parts := Parts(m);
    AncestorsOfParent(tree, parts, |parts| - 1);
    if m.kind.Regular? {
      FileUnderAncestors(tree, m, FileOf(m));
    } else {
      var parents := WithAncestors(tree, parts, |parts| - 1);
      AncestorsKeepValid(tree, parts, |parts| - 1);
      ClearForMember(tree, m);
      AncestorsKeepValid(parents, parts, |parts|);
    }
  }

  /** The tree with only the first `i` entries of its walk left. */
  function Remaining(tree: Tree, entries: seq<Path>, i: nat): Tree
    requires i <= |entries|
  {
    map p | p in tree && p in entries[..i] :: tree[p]
  }

  lemma RemainingIsValid(tree: Tree, entries: seq<Path>, i: nat)
    requires ValidTree(tree) && ParentFirst(tree, entries) && 0 < i <= |entries| && entries[0] == []
    ensures ValidTree(Remaining(tree, entries, i))
  {
    var left := Remaining(tree, entries, i);
    assert [] in entries[..i];
    forall p | p in left ensures Contained(left, p) {
      assert Contained(tree, p);
      var k :| 0 <= k < i && entries[k] == p;
      assert AfterParent(entries, k);
      if p != [] {
        var l :| 0 <= l < k && entries[..k][l] == p[..|p| - 1];
        assert entries[..i][l] == p[..|p| - 1];
      }
    }
  }

  // ----- The restore -----

  /** The fixture holds exactly what the bundle does. */
  ghost predicate Restored(volumes: map<string, string>, runner: Option<Tree>, contents: map<string, string>,
                        members: seq<Member>)
  {
    && (forall v | v in VOLUMES :: v in volumes && v in contents && volumes[v] == contents[v])
    && runner.Some? && IsExtraction(members, |members|, runner.value)
  }

  ghost predicate RunnerValid(runner: Option<Tree>)
  {
    runner.Some? ==> ValidTree(runner.value)
  }

  ghost predicate RunnerIsTree(runner: Option<Tree>)
  {
    runner.Some? ==> IsTree(runner.value)
  }

  /** Both checks that come before the shutdown: of the bundle's runner archive, and of the runner
      tree on the host. */
  ghost predicate Admitted(members: seq<Member>, runner: Option<Tree>)
  {
    Acceptable(members) && RunnerValid(runner)
  }

  /** One `restore` of an opened bundle. `contents` are its volume archives and `members` its runner
      archive; `volumes` and `runner` are what is on the host. */
  class Restore {
    const contents: map<string, string>
    const members: seq<Member>
    var outcomes: seq<Outcome>
    var volumes: map<string, string>
    var runner: Option<Tree>
    var running: bool
    var shutdownStarted: bool
    var destructive: bool
    var startupAttempted: bool
    var signalled: bool
    /** Restarts of the stack that recovery attempted. */
    var restarts: nat

    ghost predicate Valid()
      reads this
    {
      && (forall v | v in VOLUMES :: v in contents) && RunnerIsTree(runner)
      && (shutdownStarted ==> Admitted(members, runner))
      && (destructive ==> shutdownStarted)
    }

    constructor (contents: map<string, string>, members: seq<Member>, volumes: map<string, string>,
                 runner: Option<Tree>, outcomes: seq<Outcome>)
      requires (forall v | v in VOLUMES :: v in contents) && RunnerIsTree(runner)
      ensures Valid() && this.contents == contents && this.members == members && this.outcomes == outcomes
      ensures this.volumes == volumes && this.runner == runner
      ensures !shutdownStarted && !destructive && !startupAttempted && !signalled && restarts == 0
    {
      this.contents, this.members, this.volumes, this.runner := contents, members, volumes, runner;
      this.outcomes := outcomes;
      running, shutdownStarted, destructive, startupAttempted, signalled := true, false, false, false, false;
      restarts := 0;
    }

    /** What befalls the next step. With nothing left to go wrong, nothing does. */
    method Next() returns (outcome: Outcome)
      modifies this`outcomes, this`signalled
      ensures old(outcomes) == [] ==> outcome == Fine && outcomes == []
    {
      if outcomes == [] {
        return Fine;
      }
      outcome, outcomes := outcomes[0], outcomes[1..];
      if outcome != Fine { signalled := outcome.signal; }
    }

    /** `docker compose down` or `up`, or a check that changes nothing. */
    method Compose(up: bool) returns (fine: bool)
      modifies this`outcomes, this`signalled, this`running
      ensures fine ==> running == up
      ensures old(outcomes) == [] ==> fine && outcomes == []
    {
      var outcome := Next();
      if outcome == Fine || (outcome.Failed? && outcome.progress > 0) { running := up; }
      return outcome == Fine;
    }

    method Check() returns (fine: bool)
      modifies this`outcomes, this`signalled
      ensures old(outcomes) == [] ==> fine && outcomes == []
    {
      var outcome := Next();
      return outcome == Fine;
    }

    /** `_remove_and_create_volumes`: destructive from the moment the first deletion is started. */
    method ReplaceVolumes() returns (fine: bool)
      requires !destructive && shutdownStarted
      modifies this`outcomes, this`signalled, this`volumes, this`destructive
      ensures !destructive ==> volumes == old(volumes) && !fine
      ensures fine ==> forall v | v in VOLUMES :: v in volumes
      ensures old(outcomes) == [] ==> fine && outcomes == []
    {
      for i := 0 to |VOLUMES|
        invariant i > 0 ==> destructive
        invariant !destructive ==> volumes == old(volumes)
        invariant forall k | 0 <= k < i :: VOLUMES[k] in volumes
        invariant old(outcomes) == [] ==> outcomes == []
      {
        var outcome := Next();
        if outcome.NotStarted? {
          return false;
        }
        if i == 0 { destructive := true; }
        if outcome == Fine || outcome.progress > 0 { volumes := volumes - {VOLUMES[i]}; }
        if outcome.Failed? {
          return false;
        }
        outcome := Next();
        if outcome == Fine || (outcome.Failed? && outcome.progress > 0) { volumes := volumes[VOLUMES[i] := ""]; }
        if outcome != Fine {
          return false;
        }
      }
      return true;
    }

    /** `_replace_runner_target`: the validated entries from the last to the first, then an empty
        private directory. */
    method ReplaceRunner(entries: seq<Path>) returns (fine: bool)
      requires if runner.Some? then
                 && ValidTree(runner.value) && ParentFirst(runner.value, entries)
                 && entries != [] && entries[0] == []
               else entries == []
      modifies this`outcomes, this`signalled, this`runner
      ensures RunnerValid(runner)
      ensures fine ==> runner == Some(map[[] := PRIVATE])
      ensures old(outcomes) == [] ==> fine && outcomes == []
    {
      hide ValidTree, ParentFirst, Remaining;
      var i := |entries|;
      ghost var tree := if runner.Some? then runner.value else map[];
      if runner.Some? { WholeRemains(tree, entries); }
      while i > 0
        invariant 0 <= i <= |entries|
        invariant runner == if i == 0 then None else Some(Remaining(tree, entries, i))
        invariant RunnerValid(runner)
        invariant old(outcomes) == [] ==> outcomes == []
      {
        i := i - 1;
        var outcome := Next();
        if outcome == Fine || (outcome.Failed? && outcome.progress > 0) {
          if i > 0 {
            RemainingIsValid(tree, entries, i);
            OneLessRemains(tree, entries, i);
            runner := Some(runner.value - {entries[i]});
          } else {
            runner := None;
          }
        }
        if outcome != Fine {
          return false;
        }
      }
      var outcome := Next();
      if outcome == Fine || (outcome.Failed? && outcome.progress > 0) {
        EmptyIsValid();
        runner := Some(map[[] := PRIVATE]);
      }
      return outcome == Fine;
    }

    /** Each volume archive in turn; a failed extraction may leave anything in its volume. */
    method ExtractVolumes() returns (fine: bool)
      requires forall v | v in VOLUMES :: v in contents
      modifies this`outcomes, this`signalled, this`volumes
      ensures fine ==> forall v | v in VOLUMES :: v in volumes && volumes[v] == contents[v]
      ensures old(outcomes) == [] ==> fine && outcomes == []
    {
      for i := 0 to |VOLUMES|
        invariant forall k | 0 <= k < i :: VOLUMES[k] in volumes && volumes[VOLUMES[k]] == contents[VOLUMES[k]]
        invariant old(outcomes) == [] ==> outcomes == []
      {
        var outcome := Next();
        if outcome.Failed? { volumes := volumes[VOLUMES[i] := outcome.residue]; }
        if outcome != Fine {
          return false;
        }
        volumes := volumes[VOLUMES[i] := contents[VOLUMES[i]]];
      }
      return true;
    }

    /** The runner archive, member by member; a fault may leave part of one. */
    method ExtractRunner() returns (fine: bool)
      requires Acceptable(members) && runner == Some(map[[] := PRIVATE])
      modifies this`outcomes, this`signalled, this`runner
      ensures RunnerValid(runner)
      ensures fine ==> runner.Some? && IsExtraction(members, |members|, runner.value)
      ensures old(outcomes) == [] ==> fine && outcomes == []
    {
      hide Acceptable, Fits, WithMember, PartOf, Legal, Split, IsExtraction, ValidTree;
      EmptyIsValid();
      NothingExtracted(members);
      for n := 0 to |members|
        invariant runner.Some? && IsExtraction(members, n, runner.value) && ValidTree(runner.value)
        invariant old(outcomes) == [] ==> outcomes == []
      {
        NextFits(members, n, runner.value);
        NextLegal(members, n);
        NextExtraction(members, n, runner.value);
        MemberIsValid(runner.value, members[n]);
        var outcome := Next();
        if outcome.Failed? {
          PartIsValid(runner.value, members[n], outcome.progress);
          runner := Some(PartOf(runner.value, members[n], outcome.progress));
        }
        if outcome != Fine {
          return false;
        }
        runner := Some(WithMember(runner.value, members[n]));
      }
      return true;
    }

    /** The body of the `try`. */
    method Attempt(entries: seq<Path>) returns (fine: bool)
      requires Valid() && shutdownStarted && !destructive && !startupAttempted
      requires if runner.Some? then ParentFirst(runner.value, entries) && entries != [] && entries[0] == []
               else entries == []
      modifies this`outcomes, this`signalled, this`volumes, this`runner, this`running, this`destructive,
               this`startupAttempted
      ensures Valid()
      ensures !destructive ==> volumes == old(volumes) && runner == old(runner) && !fine
      ensures fine ==> running && Restored(volumes, runner, contents, members)
      ensures old(outcomes) == [] ==> fine && outcomes == []
    {
      hide Acceptable, IsExtraction, IsTree, Granted, ParentFirst;
      fine := Compose(false);
      if !fine { return; }
      fine := Check();
      if !fine { return; }
      fine := ReplaceVolumes();
      if !fine { return; }
      fine := ReplaceRunner(entries);
      if !fine { return; }
      fine := ExtractVolumes();
      if !fine { return; }
      fine := ExtractRunner();
      if !fine { return; }
      startupAttempted := true;
      fine := Compose(true);
      if !fine { return; }
      fine := Check();
    }

    /** `_restore_opened_bundle`, with a fault or a signal possible at every step. */
    method RestoreBundle() returns (restored: bool)
      requires Valid() && !shutdownStarted && !destructive && !startupAttempted && restarts == 0
      modifies this
      ensures Valid()
      ensures !destructive ==> volumes == old(volumes) && runner == old(runner)
      ensures !restored && !destructive ==> restarts == if shutdownStarted then 1 else 0
      ensures destructive ==> restarts == 0
      ensures shutdownStarted ==> Admitted(members, old(runner))
      ensures restored ==> shutdownStarted && running && Restored(volumes, runner, contents, members)
      ensures old(outcomes) == [] ==> (restored <==> Admitted(members, old(runner)))
    {
      hide Acceptable, IsExtraction, IsTree, Granted, Restored;
      restored := Check();
      if !restored { return; }
      restored := ValidateArchive(members);
      if !restored { return; }
      var entries: seq<Path> := [];
      if runner.Some? {
        var walked := Walk(runner.value);
        if walked.None? {
          return false;
        }
        entries := walked.value;
      }
      restored := Check();
      if !restored { return; }
      shutdownStarted := true;
      restored := Attempt(entries);
      if !restored {
        if !destructive {
          restarts := restarts + 1;
          var up := Compose(true);
        } else if signalled && startupAttempted {
          var down := Compose(false);
        }
      }
    }
  }

  lemma WholeRemains(tree: Tree, entries: seq<Path>)
    requires ParentFirst(tree, entries)
    ensures Remaining(tree, entries, |entries|) == tree
  {
    assert entries[..|entries|] == entries;
  }

  lemma OneLessRemains(tree: Tree, entries: seq<Path>, i: nat)
    requires ParentFirst(tree, entries) && i < |entries|
    ensures Remaining(tree, entries, i + 1) - {entries[i]} == Remaining(tree, entries, i)
  {
    assert entries[..i + 1] == entries[..i] + [entries[i]];
    assert entries[i] !in entries[..i];
  }

  lemma EmptyIsValid()
    ensures ValidTree(map[[] := PRIVATE])
  {
  }

  /** Whatever any number of earlier restores met, one that meets no fault leaves exactly the bundle. */
  method RestoreAfterFaults(contents: map<string, string>, members: seq<Member>, volumes: map<string, string>,
                            runner: Option<Tree>, faults: seq<seq<Outcome>>)
    returns (finalVolumes: map<string, string>, finalRunner: Option<Tree>)
    requires Admitted(members, runner) && (forall v | v in VOLUMES :: v in contents)
    ensures Restored(finalVolumes, finalRunner, contents, members)
  {
    hide Acceptable, IsExtraction, IsTree, Granted, Restored;
    finalVolumes, finalRunner := volumes, runner;
    for i := 0 to |faults|
      invariant Admitted(members, finalRunner)
    {
      var attempt := new Restore(contents, members, finalVolumes, finalRunner, faults[i]);
      var restored := attempt.RestoreBundle();
      finalVolumes, finalRunner := attempt.volumes, attempt.runner;
    }
    var last := new Restore(contents, members, finalVolumes, finalRunner, []);
    var restored := last.RestoreBundle();
    return last.volumes, last.runner;
  }
}
