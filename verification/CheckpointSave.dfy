/** Saving a checkpoint: archives gathered in a staging directory, published by one rename that never
    overwrites. Where a fault leaves the staging directory behind is stated exactly. */
module CheckpointSave {
  import opened Prelude

  const VOLUME_ARTIFACTS := ["mariadb-volume.tar", "bugzilla-volume.tar"]
  const RUNNER_ARCHIVE := "runner-state.tar"
  const MANIFEST := "manifest.json"
  const MARKER := ".checkpoint-staging.json"
  const FINAL_NAMES := {"bugzilla-volume.tar", "mariadb-volume.tar", "runner-state.tar", "manifest.json"}

  /** The final names as a directory listing has them. */
  const CHILDREN := ["bugzilla-volume.tar", "manifest.json", "mariadb-volume.tar", "runner-state.tar"]

  /** A file as the invocation that validates it would find it. */
  datatype File = Whole | Partial

  type Directory = map<string, File>

  /** Exactly the four files, each whole. */
  predicate IsBundle(dir: Directory)
  {
    dir.Keys == FINAL_NAMES && forall name | name in dir :: dir[name] == Whole
  }

  /** The steps that touch the staging directory itself; `Other` is any other step. */
  datatype Step =
    | MakeDirectory | SetMode | OpenDirectory | CreateMarker | WriteMarker
    | DropMarker | Rename
    | UndoMarker | UndoDirectory
    | VerifyDirectory | RecreateMarker | RewriteMarker
    | Inspect | Unlink | UnlinkMarker | RemoveDirectory
    | Other

  /** What befalls a step: it succeeds, or it fails or is interrupted, with or without having left
      something behind. `Contested` is another process creating the final path first. */
  datatype Outcome = Fine | Stopped(left: bool) | Contested(other: Directory)

  /** Between `mkdir` and the marker's creation: the directory is there, and nothing says whose it is. */
  predicate BeforeMarker(step: Step)
  {
    step.SetMode? || step.OpenDirectory? || step.CreateMarker?
  }

  /** Steps taken only to remove what an earlier fault left. */
  predicate Undoes(step: Step)
  {
    || step.UndoMarker? || step.UndoDirectory?
    || step.VerifyDirectory? || step.RecreateMarker? || step.RewriteMarker?
    || step.Inspect? || step.Unlink? || step.UnlinkMarker? || step.RemoveDirectory?
  }

  /** Some failed step leaves the staging directory behind. */
  predicate Stranded(failed: seq<Step>)
  {
    exists step | step in failed :: BeforeMarker(step) || Undoes(step)
  }

  lemma StrandedNext(failed: seq<Step>, step: Step)
    ensures Stranded(failed + [step]) <==> Stranded(failed) || BeforeMarker(step) || Undoes(step)
  {
    assert step in failed + [step];
  }

  /** Step number `at` is the first that does not succeed. */
  predicate FirstFault(outcomes: seq<Outcome>, at: nat)
  {
    at < |outcomes| && outcomes[at] != Fine && forall i | 0 <= i < at :: outcomes[i] == Fine
  }

  function Skip(outcomes: seq<Outcome>, n: nat): seq<Outcome>
  {
    if n <= |outcomes| then outcomes[n..] else []
  }

  /** A first fault further on is found so many steps further on. */
  lemma FaultsLater(outcomes: seq<Outcome>)
    ensures forall at: nat | FirstFault(outcomes, at) ::
      outcomes != [] && if at == 0 then outcomes[0] != Fine
                        else outcomes[0] == Fine && FirstFault(Skip(outcomes, 1), at - 1)
  {
  }

  /** `cleanup_staging`'s test: only known names, and this invocation's own marker. */
  predicate Removable(staging: Directory)
  {
    staging.Keys <= FINAL_NAMES + {MARKER} && MARKER in staging && staging[MARKER] == Whole
  }

  /** Staging while a save fills it. */
  predicate Recoverable(staging: Directory)
  {
    staging.Keys <= FINAL_NAMES + {MARKER} && (MARKER in staging ==> staging[MARKER] == Whole)
  }

  // ----- What a kill leaves -----

  /** The staging directory as a step leaves it. A kill at this moment leaves it so for good. */
  datatype Moment = Moment(step: Step, fine: bool, staging: Option<Directory>)

  /** The next run's cleanup refuses what it finds here. */
  predicate Stuck(staging: Option<Directory>)
  {
    staging.Some? && !Removable(staging.value)
  }

  /** From here on the directory is there without its whole marker. */
  predicate Exposes(step: Step)
  {
    step.MakeDirectory? || step.DropMarker? || step.UnlinkMarker?
  }

  /** From here on the marker is whole again, or the directory gone. */
  predicate Covers(step: Step)
  {
    step.WriteMarker? || step.Rename? || step.UndoDirectory? || step.RewriteMarker? || step.RemoveDirectory?
  }

  /** Of the steps that succeeded, the last that exposes or covers the directory exposes it. */
  predicate Exposed(first: bool, log: seq<Moment>)
    decreases |log|
  {
    if log == [] then first
    else
      var earlier, last := log[..|log| - 1], log[|log| - 1];
      if last.fine && Exposes(last.step) then true
      else if last.fine && Covers(last.step) then false
      else Exposed(first, earlier)
  }

  /** A kill at any moment leaves what the next cleanup refuses exactly where the directory is exposed. */
  ghost predicate StuckWhereExposed(first: bool, log: seq<Moment>)
  {
    forall n | 0 < n <= |log| :: Stuck(log[n - 1].staging) <==> Exposed(first, log[..n])
  }

  lemma ExposedNext(first: bool, log: seq<Moment>, m: Moment)
    requires StuckWhereExposed(first, log)
    requires Stuck(m.staging) <==>
      if m.fine && Exposes(m.step) then true else if m.fine && Covers(m.step) then false else Exposed(first, log)
    ensures StuckWhereExposed(first, log + [m]) && (Exposed(first, log + [m]) <==> Stuck(m.staging))
  {
    var longer := log + [m];
    assert longer[..|log|] == log;
    assert longer[..|longer|] == longer;
    forall n | 0 < n <= |longer| ensures Stuck(longer[n - 1].staging) <==> Exposed(first, longer[..n]) {
      if n <= |log| { assert longer[..n] == log[..n]; }
    }
  }

  lemma OnlyTheMarker()
    ensures Stuck(Some(map[])) && Stuck(Some(map[MARKER := Partial])) && !Stuck(Some(map[MARKER := Whole]))
    ensures map[MARKER := Partial] != map[]
  {
    assert MARKER in (map[MARKER := Partial]) && MARKER in (map[MARKER := Whole]);
  }

  lemma WritingRecoverable(dir: Directory, name: string, file: File)
    requires Recoverable(dir) && name in FINAL_NAMES
    ensures Recoverable(dir[name := file]) && (Stuck(Some(dir[name := file])) <==> Stuck(Some(dir)))
  {
  }

  predicate PartOf(part: Directory, whole: Directory)
  {
    forall name | name in part :: name in whole && part[name] == whole[name]
  }

  /** The final path's history: absent, then whatever first appears there, for good. */
  ghost predicate NeverOverwritten(seen: seq<Option<Directory>>)
  {
    forall i | 0 <= i < |seen| - 1 :: seen[i].Some? ==> seen[i + 1] == seen[i]
  }

  /** What the final path holds at the end is all it ever held. */
  lemma {:induction false} AppearsOnce(seen: seq<Option<Directory>>)
    requires seen != [] && NeverOverwritten(seen)
    ensures forall d | d in seen :: d == None || d == seen[|seen| - 1]
    decreases |seen|
  {
    if |seen| > 1 {
      var earlier := seen[..|seen| - 1];
      AppearsOnce(earlier);
      assert seen == earlier + [seen[|seen| - 1]];
      assert seen[|seen| - 2].Some? ==> seen[|seen| - 2 + 1] == seen[|seen| - 2];
    }
  }

  class Save {
    var outcomes: seq<Outcome>
    var staging: Option<Directory>
    var final: Option<Directory>
    var running: bool
    var shutdownStarted: bool
    var created: bool
    var published: bool
    var restarts: nat
    /** The final path after every step so far. */
    ghost var seen: seq<Option<Directory>>
    /** The steps that did not succeed, in order. */
    ghost var failed: seq<Step>
    /** The staging directory after every step so far. */
    ghost var log: seq<Moment>
    /** Whether there was something at the start that a cleanup refuses. */
    ghost const foreign: bool

    ghost predicate Valid()
      reads this
    {
      && seen != [] && seen[|seen| - 1] == final && NeverOverwritten(seen)
      && (published ==> created && staging.None? && final.Some? && IsBundle(final.value))
      && (created ==> shutdownStarted)
      && Watched()
    }

    /** At every moment so far, and now, staging is stuck exactly where it is exposed. */
    ghost predicate Watched()
      reads this`staging, this`log
    {
      StuckWhereExposed(foreign, log) && (Stuck(staging) <==> Exposed(foreign, log))
    }

    /** The save is filling its own staging directory, and nothing has stranded it. */
    ghost predicate Filling()
      reads this
    {
      && created && !published && staging.Some? && Recoverable(staging.value) && !Stranded(failed)
    }

    constructor (staging: Option<Directory>, final: Option<Directory>, outcomes: seq<Outcome>)
      ensures Valid() && !shutdownStarted && !created && !published && running && restarts == 0
      ensures this.staging == staging && this.final == final && this.outcomes == outcomes
      ensures seen == [final] && failed == [] && log == [] && foreign == Stuck(staging)
    {
      this.staging, this.final, this.outcomes, this.seen, this.failed := staging, final, outcomes, [final], [];
      log, foreign := [], Stuck(staging);
      running, shutdownStarted, created, published, restarts := true, false, false, false, 0;
    }

    /** What staging is once a step has gone through, as far as cleanup cares. */
    ghost predicate Leads(step: Step, fine: bool, to: Option<Directory>)
      reads this
    {
      Stuck(to) <==> if fine && Exposes(step) then true else if fine && Covers(step) then false else Stuck(staging)
    }

    /** One more moment at which a kill may strike. */
    ghost method Note(step: Step, fine: bool, to: Option<Directory>)
      requires Watched() && Leads(step, fine, to)
      modifies this`log
      ensures log == old(log) + [Moment(step, fine, to)]
      ensures Stuck(to) == Stuck(staging) ==> Watched()
      ensures StuckWhereExposed(foreign, log) && (Stuck(to) <==> Exposed(foreign, log))
    {
      hide StuckWhereExposed, Exposed, Stuck;
      ExposedNext(foreign, log, Moment(step, fine, to));
      log := log + [Moment(step, fine, to)];
    }

    method Become(step: Step, fine: bool, to: Option<Directory>)
      requires Watched() && Leads(step, fine, to)
      modifies this`staging, this`log
      ensures Watched() && staging == to && log == old(log) + [Moment(step, fine, to)]
    {
      hide StuckWhereExposed, Exposed, Stuck;
      Note(step, fine, to);
      staging := to;
    }

    /** Asks for a step's outcome. If it succeeds, `to` is what it leaves of staging. */
    method Next(step: Step, to: Option<Directory>) returns (outcome: Outcome)
      requires Valid() && Leads(step, true, to) && !step.Rename?
      requires published ==> to == staging
      modifies this`outcomes, this`staging, this`seen, this`failed, this`log
      ensures Valid() && old(seen) <= seen && old(log) < log && outcomes == Skip(old(outcomes), 1)
      ensures staging == if outcome == Fine then to else old(staging)
      ensures outcome == if old(outcomes) == [] then Fine else old(outcomes)[0]
      ensures failed == if outcome == Fine then old(failed) else old(failed) + [step]
      ensures Stranded(failed) <==> Stranded(old(failed)) || (outcome != Fine && (BeforeMarker(step) || Undoes(step)))
    {
      hide Save.Watched, Stranded, Stuck, IsBundle;
      StrandedNext(failed, step);
      outcome := Fine;
      if outcomes != [] {
        outcome, outcomes := outcomes[0], outcomes[1..];
      }
      if outcome == Fine {
        Become(step, true, to);
      } else {
        Become(step, false, staging);
        failed := failed + [step];
      }
      seen := seen + [final];
    }

    /** A step that writes one file into staging: whole, partial or not at all. */
    method WriteFile(name: string) returns (fine: bool)
      requires Valid() && Filling() && name in FINAL_NAMES
      modifies this`outcomes, this`staging, this`seen, this`failed, this`log
      ensures Valid() && Filling() && old(seen) <= seen && old(log) <= log && final == old(final)
      ensures fine ==> staging == Some(old(staging).value[name := Whole])
      ensures !fine ==> failed != []
    {
      hide Save.Watched, NeverOverwritten, Stranded, Stuck, Recoverable;
      WritingRecoverable(staging.value, name, Partial);
      WritingRecoverable(staging.value, name, Whole);
      Note(Other, false, Some(staging.value[name := Partial]));
      var outcome := Next(Other, Some(staging.value[name := Whole]));
      if outcome == Stopped(true) {
        Become(Other, false, Some(staging.value[name := Partial]));
      }
      return outcome == Fine;
    }

    /** A step that only checks something. */
    method Check() returns (fine: bool)
      requires Valid() && !Stranded(failed)
      modifies this`outcomes, this`staging, this`seen, this`failed, this`log
      ensures Valid() && old(seen) <= seen && old(log) <= log && !Stranded(failed)
      ensures outcomes == Skip(old(outcomes), 1) && staging == old(staging)
      ensures fine <==> old(outcomes) == [] || old(outcomes)[0] == Fine
      ensures if fine then failed == old(failed) else failed != []
    {
      var outcome := Next(Other, staging);
      return outcome == Fine;
    }

    method GatherVolumes() returns (fine: bool)
      requires Valid() && Filling() && staging == Some(map[MARKER := Whole])
      modifies this`outcomes, this`staging, this`seen, this`failed, this`log
      ensures Valid() && Filling() && old(seen) <= seen && old(log) <= log && final == old(final)
      ensures fine ==> staging.value.Keys == {MARKER} + Elements(VOLUME_ARTIFACTS)
      ensures fine ==> forall name | name in staging.value :: staging.value[name] == Whole
      ensures !fine ==> failed != []
    {
      hide Save.Watched, NeverOverwritten, Stranded;
      for i := 0 to |VOLUME_ARTIFACTS|
        invariant Valid() && Filling() && final == old(final) && old(seen) <= seen && old(log) <= log
        invariant staging.value.Keys == {MARKER} + Elements(VOLUME_ARTIFACTS[..i])
        invariant forall name | name in staging.value :: staging.value[name] == Whole
      {
        assert VOLUME_ARTIFACTS[..i + 1] == VOLUME_ARTIFACTS[..i] + [VOLUME_ARTIFACTS[i]];
        assert VOLUME_ARTIFACTS[i] in FINAL_NAMES;
        fine := WriteFile(VOLUME_ARTIFACTS[i]);
        if !fine { return; }
      }
      assert VOLUME_ARTIFACTS[..|VOLUME_ARTIFACTS|] == VOLUME_ARTIFACTS;
      return true;
    }

    /** The three archives, and their validation. */
    method GatherArchives() returns (fine: bool)
      requires Valid() && Filling() && staging == Some(map[MARKER := Whole])
      modifies this`outcomes, this`staging, this`seen, this`failed, this`log
      ensures Valid() && Filling() && old(seen) <= seen && old(log) <= log && final == old(final)
      ensures fine ==> staging.value.Keys == {MARKER, RUNNER_ARCHIVE} + Elements(VOLUME_ARTIFACTS)
      ensures fine ==> forall name | name in staging.value :: staging.value[name] == Whole
      ensures !fine ==> failed != []
    {
      hide Save.Watched, NeverOverwritten, Stranded, Stuck, Removable;
      fine := GatherVolumes();
      if !fine { return; }
      fine := WriteFile(RUNNER_ARCHIVE);
      if !fine { return; }
      fine := Check();
    }

    /** The archives, the manifest, the marker's removal, and the validation of the whole. */
    method Gather() returns (fine: bool)
      requires Valid() && Filling() && staging == Some(map[MARKER := Whole])
      modifies this`outcomes, this`staging, this`seen, this`failed, this`log
      ensures Valid() && Filling() && old(seen) <= seen && old(log) <= log && final == old(final)
      ensures if fine then IsBundle(staging.value) else failed != []
    {
      hide Save.Watched, NeverOverwritten, Stranded, Stuck, Removable;
      fine := GatherArchives();
      if !fine { return; }
      fine := WriteFile(MANIFEST);
      if !fine { return; }
      fine := DropMarker();
      if !fine { return; }
      fine := Check();
      if !fine { return; }
      fine := IsBundle(staging.value);
    }

    method DropMarker() returns (fine: bool)
      requires Valid() && Filling()
      modifies this`outcomes, this`staging, this`seen, this`failed, this`log
      ensures Valid() && Filling() && old(seen) <= seen && old(log) <= log && final == old(final)
      ensures if fine then staging == Some(old(staging).value - {MARKER}) else failed != []
    {
      var outcome := Next(Step.DropMarker, Some(staging.value - {MARKER}));
      return outcome == Fine;
    }

    /** `_publish_staging`: the absence check, then a rename that refuses an existing target. */
    method Publish() returns (fine: bool)
      requires Valid() && Filling() && IsBundle(staging.value)
      modifies this`outcomes, this`staging, this`final, this`published, this`seen, this`failed, this`log
      ensures Valid() && old(seen) <= seen && old(log) <= log && !Stranded(failed)
      ensures fine == published
      ensures fine ==> old(final).None? && final == old(staging) && staging == None
      ensures !fine ==> (final == old(final) || old(final).None?) && staging == old(staging) && Filling()
      ensures !fine ==> failed != [] || old(final).Some?
    {
      hide Save.Watched, Stranded, IsBundle, Recoverable, Removable;
      var outcome := Next(Other, staging);
      if outcome.Contested? && final.None? {
        final := Some(outcome.other);
        seen := seen + [final];
      }
      if final.Some? || outcome.Stopped? {
        return false;
      }
      final, published := staging, true;
      Become(Rename, true, None);
      seen := seen + [final];
      return true;
    }

    /** The deletions of `cleanup_staging`: every other file, then the marker, then the directory. */
    method RemoveStaging() returns (removed: bool)
      requires Valid() && !published && staging.Some? && Removable(staging.value)
      modifies this`outcomes, this`staging, this`seen, this`failed, this`log
      ensures Valid() && old(seen) <= seen && old(log) <= log
      ensures removed ==> staging.None? && failed == old(failed)
      ensures !removed ==> |failed| == |old(failed)| + 1 && old(failed) <= failed && staging.Some?
      ensures old(outcomes) == [] ==> removed
      ensures !removed ==>
        match failed[|failed| - 1]
        case Unlink => Removable(staging.value) && PartOf(staging.value, old(staging).value)
        case UnlinkMarker => staging.value == map[MARKER := Whole]
        case RemoveDirectory => staging.value == map[]
        case _ => false
    {
      hide Save.Watched, NeverOverwritten, Recoverable, IsBundle, Stranded;
      for i := 0 to |CHILDREN|
        invariant Valid() && old(seen) <= seen && old(log) <= log && failed == old(failed) && staging.Some?
        invariant Removable(staging.value) && PartOf(staging.value, old(staging).value)
        invariant forall k | 0 <= k < i :: CHILDREN[k] !in staging.value
        invariant old(outcomes) == [] ==> outcomes == []
      {
        if CHILDREN[i] in staging.value {
          var outcome := Next(Unlink, Some(staging.value - {CHILDREN[i]}));
          if outcome != Fine { return false; }
        }
      }
      assert CHILDREN[0] !in staging.value && CHILDREN[1] !in staging.value;
      assert CHILDREN[2] !in staging.value && CHILDREN[3] !in staging.value;
      assert staging.value == map[MARKER := Whole];
      var outcome := Next(UnlinkMarker, Some(map[]));
      if outcome != Fine { return false; }
      outcome := Next(RemoveDirectory, None);
      return outcome == Fine;
    }

    /** `cleanup_staging`: removes a staging directory only if it is known to be this invocation's. Cut
        short, it leaves one it can remove the next time, except between the last two deletions. */
    method CleanupStaging() returns (removed: bool)
      requires Valid() && !published
      modifies this`outcomes, this`staging, this`seen, this`failed, this`log
      ensures Valid() && old(seen) <= seen && old(log) <= log
      ensures removed ==> staging.None? && failed == old(failed)
      ensures removed ==> old(staging).None? || Removable(old(staging).value)
      ensures old(staging).None? ==> staging.None? && outcomes == Skip(old(outcomes), 1)
      ensures old(staging).None? ==> (removed <==> old(outcomes) == [] || old(outcomes)[0] == Fine)
      ensures old(staging).Some? && !Removable(old(staging).value) ==> !removed && staging == old(staging)
      ensures !removed && failed == old(failed) ==> old(staging).Some? && !Removable(old(staging).value)
      ensures old(outcomes) == [] ==> failed == old(failed)
      ensures !removed && failed != old(failed) ==>
        && |failed| == |old(failed)| + 1 && old(failed) <= failed
        && match failed[|failed| - 1]
           case Inspect => staging == old(staging)
           case Unlink => staging.Some? && Removable(staging.value)
           case UnlinkMarker => staging.Some? && Removable(staging.value)
           case RemoveDirectory => staging == Some(map[])
           case _ => false
    {
      hide Save.Watched, NeverOverwritten;
      var outcome := Next(Inspect, staging);
      if outcome != Fine { return false; }
      if staging.None? { return true; }
      if !Removable(staging.value) { return false; }
      removed := RemoveStaging();
    }

    /** The handler of `create_staging`. Without a marker its first deletion finds no file, and the
        second is not reached. */
    method UndoStaging()
      requires Valid() && !published && staging in {Some(map[]), Some(map[MARKER := Partial])}
      modifies this`outcomes, this`staging, this`seen, this`failed, this`log
      ensures Valid() && old(seen) <= seen && old(log) <= log && old(failed) <= failed
      ensures old(staging) == Some(map[]) ==> staging == Some(map[]) && failed == old(failed)
      ensures old(staging) != Some(map[]) ==>
        if failed == old(failed) then staging.None? else staging.Some? && Stranded(failed)
    {
      hide Save.Watched, NeverOverwritten, Stranded;
      if MARKER !in staging.value { return; }
      var outcome := Next(UndoMarker, Some(map[]));
      if outcome != Fine { return; }
      outcome := Next(UndoDirectory, None);
    }

    /** The `try` of `create_staging`: from the open directory to the written marker. */
    method WriteStagingMarker() returns (fine: bool)
      requires Valid() && !published && staging == Some(map[])
      modifies this`outcomes, this`staging, this`seen, this`failed, this`log
      ensures Valid() && old(seen) <= seen && old(log) <= log
      ensures fine ==> staging == Some(map[MARKER := Whole]) && failed == old(failed)
      ensures !fine ==> |failed| == |old(failed)| + 1 && old(failed) <= failed
      ensures !fine ==>
        match failed[|old(failed)|]
        case OpenDirectory => staging == Some(map[])
        case CreateMarker => staging == Some(map[])
        case WriteMarker => staging == Some(map[MARKER := Partial])
        case _ => false
      ensures !fine ==> (Stranded(failed) <==> Stranded(old(failed)) || BeforeMarker(failed[|old(failed)|]))
      ensures forall at | 0 <= at <= 1 && FirstFault(old(outcomes), at) :: !fine && staging == Some(map[])
    {
      hide Save.Watched, NeverOverwritten, Stuck, Stranded, FirstFault, IsBundle;
      OnlyTheMarker();
      FaultsLater(outcomes);
      var outcome := Next(OpenDirectory, staging);
      if outcome != Fine { return false; }
      FaultsLater(outcomes);
      outcome := Next(CreateMarker, Some(map[MARKER := Partial]));
      if outcome != Fine { return false; }
      outcome := Next(WriteMarker, Some(map[MARKER := Whole]));
      return outcome == Fine;
    }

    /** What follows the new directory: its marker, or the undoing of both. */
    method PlaceMarker() returns (fine: bool)
      requires Valid() && shutdownStarted && !created && !published && staging == Some(map[]) && !Stranded(failed)
      modifies this`outcomes, this`staging, this`created, this`seen, this`failed, this`log
      ensures Valid() && old(seen) <= seen && old(log) <= log && fine == created
      ensures fine ==> staging == Some(map[MARKER := Whole]) && failed == old(failed)
      ensures !fine ==> old(failed) < failed && (staging.Some? <==> Stranded(failed))
      ensures !fine && |failed| == |old(failed)| + 1 ==> (staging.Some? <==> BeforeMarker(failed[|old(failed)|]))
      ensures forall at | 0 <= at <= 1 && FirstFault(old(outcomes), at) :: !fine && staging == Some(map[])
    {
      hide Save.Watched, NeverOverwritten, Stuck, Stranded, FirstFault, IsBundle;
      fine := WriteStagingMarker();
      OnlyTheMarker();
      if !fine {
        UndoStaging();
        return;
      }
      created := true;
    }

    /** `create_staging`: a private directory, and in it the marker. */
    method CreateStaging() returns (fine: bool)
      requires Valid() && shutdownStarted && !created && !published && staging.None? && !Stranded(failed)
      modifies this`outcomes, this`staging, this`created, this`seen, this`failed, this`log
      ensures Valid() && old(seen) <= seen && old(log) <= log && final == old(final) && fine == created
      ensures fine ==> Filling() && staging == Some(map[MARKER := Whole]) && failed == old(failed)
      ensures !fine ==> failed != [] && (staging.Some? <==> Stranded(failed))
      ensures !fine && |failed| == 1 ==> (staging.Some? <==> BeforeMarker(failed[0]))
      ensures forall at | 1 <= at <= 3 && FirstFault(old(outcomes), at) :: !fine && staging == Some(map[])
    {
      hide Save.Watched, NeverOverwritten, Stranded, FirstFault;
      FaultsLater(outcomes);
      var outcome := Next(MakeDirectory, Some(map[]));
      if outcome != Fine { return false; }
      FaultsLater(outcomes);
      outcome := Next(SetMode, staging);
      if outcome != Fine { return false; }
      fine := PlaceMarker();
    }

    /** The stack goes down, or comes up; a failed command may still have had its effect. */
    method Compose(up: bool) returns (fine: bool)
      requires Valid()
      modifies this`outcomes, this`staging, this`running, this`seen, this`failed, this`log
      ensures Valid() && old(seen) <= seen && old(log) <= log && outcomes == Skip(old(outcomes), 1)
      ensures fine <==> old(outcomes) == [] || old(outcomes)[0] == Fine
      ensures fine ==> running == up
      ensures staging == old(staging)
      ensures failed == if fine then old(failed) else old(failed) + [Other]
      ensures Stranded(failed) <==> Stranded(old(failed))
    {
      var outcome := Next(Other, staging);
      if outcome == Fine || outcome == Stopped(true) { running := up; }
      return outcome == Fine;
    }

    /** The body of the `try`: everything from the shutdown to the restarted, healthy fixture. */
    method Attempt() returns (fine: bool)
      requires Valid() && shutdownStarted && !created && !published && staging.None? && final.None?
      requires failed == [] && !Stranded(failed)
      modifies this`outcomes, this`staging, this`final, this`running, this`created, this`published, this`seen,
               this`failed, this`log
      ensures Valid() && old(seen) <= seen && old(log) <= log && (fine ==> published && running)
      ensures !fine ==> failed != []
      ensures !fine && created && !published ==> Filling()
      ensures !fine && !created ==> final.None? && (staging.Some? <==> Stranded(failed))
      ensures !fine && !created && |failed| == 1 ==> (staging.Some? <==> BeforeMarker(failed[0]))
      ensures forall at | 2 <= at <= 4 && FirstFault(old(outcomes), at) :: !fine && !created && staging == Some(map[])
    {
      hide Save.Watched, NeverOverwritten, FirstFault, Stranded, Stuck, Removable, IsBundle, Recoverable;
      FaultsLater(outcomes);
      fine := Compose(false);
      if !fine { return; }
      fine := CreateStaging();
      if !fine { return; }
      fine := Gather();
      if !fine { return; }
      fine := Publish();
      if !fine { return; }
      fine := Compose(true);
      if !fine { return; }
      fine := Check();
    }

    /** `_restore_marker_for_cleanup`: the marker goes back if it is gone. */
    method RestoreMarker() returns (fine: bool)
      requires Valid() && Filling()
      modifies this`outcomes, this`staging, this`seen, this`failed, this`log
      ensures Valid() && old(seen) <= seen && old(log) <= log && staging.Some?
      ensures fine ==> Removable(staging.value) && failed == old(failed)
      ensures !fine ==> |failed| == |old(failed)| + 1 && old(failed) <= failed && Undoes(failed[|failed| - 1])
    {
      hide Save.Watched, NeverOverwritten;
      var outcome := Next(VerifyDirectory, staging);
      if outcome != Fine { return false; }
      if MARKER in staging.value { return true; }
      outcome := Next(RecreateMarker, Some(staging.value[MARKER := Partial]));
      if outcome != Fine { return false; }
      outcome := Next(RewriteMarker, Some(staging.value[MARKER := Whole]));
      return outcome == Fine;
    }

    /** `_cleanup_save_staging`. */
    method TakeBack()
      requires Valid() && Filling()
      modifies this`outcomes, this`staging, this`seen, this`failed, this`log
      ensures Valid() && old(seen) <= seen && old(log) <= log && old(failed) <= failed
      ensures staging.Some? <==> failed != old(failed)
      ensures staging.Some? <==> Stranded(failed)
    {
      hide Save.Watched, NeverOverwritten;
      var fine := RestoreMarker();
      if fine {
        var removed := CleanupStaging();
      }
      assert failed != old(failed) ==> failed[|failed| - 1] in failed;
    }

    /** `_save_failure`: takes staging back unless it was published or never taken note of, and
        restarts the fixture once. */
    method Fail()
      requires Valid() && shutdownStarted && (created && !published ==> Filling())
      modifies this`outcomes, this`staging, this`running, this`restarts, this`seen, this`failed, this`log
      ensures Valid() && old(seen) <= seen && old(log) <= log && old(failed) <= failed && final == old(final)
      ensures restarts == old(restarts) + 1
      ensures !created ==> staging == old(staging) && (Stranded(failed) <==> Stranded(old(failed)))
      ensures created && !published ==> (staging.Some? <==> Stranded(failed))
    {
      hide Save.Watched, NeverOverwritten, Stranded, Stuck, IsBundle, Recoverable;
      if !published && created { TakeBack(); }
      var restarted := Compose(true);
      if restarted {
        var outcome := Next(Other, staging);
      }
      restarts := restarts + 1;
    }

    /** `save_checkpoint`, with a fault possible at every step. */
    method SaveCheckpoint() returns (saved: bool)
      requires Valid() && !shutdownStarted && !created && !published && running && restarts == 0 && failed == []
      modifies this
      ensures Valid() && old(seen) <= seen && old(log) <= log
      ensures forall d | d in seen :: d == None || d == final
      ensures old(final).Some? ==> !saved && final == old(final) && staging == old(staging) && !shutdownStarted
      ensures published ==> old(final).None? && final.Some? && IsBundle(final.value) && staging.None?
      ensures saved ==> published && running && restarts == 0
      ensures !saved && !shutdownStarted ==> running && final == old(final) && restarts == 0
      ensures !saved && shutdownStarted ==> restarts == 1
      ensures shutdownStarted && !published ==> (staging.Some? <==> Stranded(failed))
      ensures shutdownStarted && !published && |failed| == 1 ==> (staging.Some? <==> BeforeMarker(failed[0]))
      ensures old(final).None? && old(staging).None? ==>
        forall at | 4 <= at <= 6 && FirstFault(old(outcomes), at) ::
          shutdownStarted && !published && staging == Some(map[])
    {
      hide Save.Watched, NeverOverwritten, FirstFault;
      AppearsOnce(seen);
      if final.Some? {
        return false;
      }
      FaultsLater(outcomes);
      var clear := CleanupStaging();
      AppearsOnce(seen);
      if !clear {
        return false;
      }
      FaultsLater(outcomes);
      saved := Check();
      AppearsOnce(seen);
      if !saved { return; }
      shutdownStarted := true;
      ghost var rest := outcomes;
      saved := Attempt();
      forall at | old(staging).None? && 4 <= at <= 6 && FirstFault(old(outcomes), at)
        ensures !saved && !created && staging == Some(map[])
      {
        assert FirstFault(Skip(old(outcomes), 1), at - 1);
        assert FirstFault(rest, at - 2);
      }
      if !saved { Fail(); }
      AppearsOnce(seen);
    }
  }

  /** A run after a kill removes what the killed one left, or finds nothing left, unless the kill struck
      where staging was exposed. */
  method CleanUpAfter(killed: Save, ghost n: nat, left: Option<Directory>) returns (next: Save, clear: bool)
    requires killed.Valid() && n < |killed.log| && left == killed.log[n].staging
    ensures clear <==> !Exposed(killed.foreign, killed.log[..n + 1])
    ensures next.staging == if clear then None else left
  {
    next := new Save(left, None, []);
    clear := next.CleanupStaging();
  }

  /** One fault, when the new directory's mode is set: the save fails, an empty directory without a
      marker stays where staging was, and no later cleanup removes it. */
  method StrandsStaging() returns (save: Save, removed: bool)
    ensures fresh(save) && save.shutdownStarted && !save.published
    ensures save.staging == Some(map[]) && !removed
  {
    save := new Save(None, None, [Fine, Fine, Fine, Fine, Stopped(false)]);
    assert FirstFault(save.outcomes, 4);
    var saved := save.SaveCheckpoint();
    removed := save.CleanupStaging();
  }
}
