/** The journal on disk: one file an attempt, installed through a temporary file, in a directory a
    kill can leave between any two operations. */
module JournalFiles {
  import opened Prelude
  import opened Markers
  import opened AttemptFiles
  import opened Records

  /** A file holds a whole record, or what a kill left of a temporary. */
  datatype Content<I, P> = Whole(record: Record<I, P>) | Partial

  type Directory<I, P> = map<string, Content<I, P>>

  // ----- What a directory says -----

  predicate Recognised(name: string)
  {
    name == ".lock" || IsTemporary(name) || Parse(name).Some?
  }

  predicate AllRecognised<I, P>(dir: Directory<I, P>)
  {
    forall name | name in dir :: Recognised(name)
  }

  /** The attempts of an event that have a file. */
  predicate HasAttempt<I, P>(dir: Directory<I, P>, event: string, attempt: nat)
  {
    attempt <= LAST_ATTEMPT && Filename(event, attempt) in dir
  }

  /** The directory holds exactly this history for the event: attempts 1, 2, ... without a gap, each
      a whole record of that attempt, forming a valid history. */
  ghost predicate Holds<I, P>(dir: Directory<I, P>, event: string, history: seq<Record<I, P>>)
  {
    && (forall a: nat :: HasAttempt(dir, event, a) <==> 1 <= a <= |history|)
    && (forall i | 0 <= i < |history| :: FileIs(dir, Filename(event, i + 1), history[i]))
    && ValidHistory(event, history)
  }

  ghost predicate FileIs<I, P>(dir: Directory<I, P>, name: string, record: Record<I, P>)
  {
    name in dir && dir[name] == Whole(record)
  }

  lemma HistoryIsUnique<I, P>(dir: Directory<I, P>, event: string, a: seq<Record<I, P>>, b: seq<Record<I, P>>)
    requires Holds(dir, event, a) && Holds(dir, event, b)
    ensures a == b
  {
    assert HasAttempt(dir, event, |a|) <==> 1 <= |a| <= |b|;
    assert HasAttempt(dir, event, |b|) <==> 1 <= |b| <= |a|;
    forall i | 0 <= i < |a| && i < |b| ensures a[i] == b[i] {
      assert FileIs(dir, Filename(event, i + 1), a[i]) && FileIs(dir, Filename(event, i + 1), b[i]);
    }
  }

  ghost predicate Readable<I(!new), P(!new)>(dir: Directory<I, P>, event: string)
  {
    AllRecognised(dir) && exists history :: Holds(dir, event, history)
  }

  /** The attempts among some names. */
  ghost predicate AttemptsAmong(names: set<string>, event: string, attempts: set<nat>)
  {
    forall a: nat :: a in attempts <==> exists name | name in names :: Parse(name) == Some((event, a))
  }

  lemma AttemptsOfDirectory<I, P>(dir: Directory<I, P>, event: string, attempts: set<nat>)
    requires IsSlug(event) && AttemptsAmong(dir.Keys, event, attempts)
    ensures forall a: nat :: a in attempts <==> HasAttempt(dir, event, a)
  {
    forall a: nat ensures a in attempts <==> HasAttempt(dir, event, a) {
      FilenameReadsBack(event, a);
      if a in attempts {
        var name :| name in dir && Parse(name) == Some((event, a));
        ParseWritesBack(name);
      }
    }
  }

  /** The scan of the directory: every name must be one the store knows. */
  method ListAttempts<I, P>(dir: Directory<I, P>, event: string) returns (attempts: Option<set<nat>>)
    ensures attempts.Some? <==> AllRecognised(dir)
    ensures attempts.Some? ==> AttemptsAmong(dir.Keys, event, attempts.value)
  {
    var rest, found := dir.Keys, {};
    while rest != {}
      invariant rest <= dir.Keys && forall name | name in dir && name !in rest :: Recognised(name)
      invariant AttemptsAmong(dir.Keys - rest, event, found)
      decreases rest
    {
      var name :| name in rest;
      AnotherName(dir.Keys - rest, event, found, name);
      assert dir.Keys - (rest - {name}) == dir.Keys - rest + {name};
      rest := rest - {name};
      var parsed := Parse(name);
      if name != ".lock" && !IsTemporary(name) {
        if parsed.None? {
          return None;
        }
        if parsed.value.0 == event { found := found + {parsed.value.1}; }
      } else {
        NotAnAttempt(name);
      }
    }
    assert dir.Keys - {} == dir.Keys;
    return Some(found);
  }

  lemma NotAnAttempt(name: string)
    requires name == ".lock" || IsTemporary(name)
    ensures Parse(name).None?
  {
    if Parse(name).Some? {
      ParseWritesBack(name);
      AttemptFilesAreNeither(Parse(name).value.0, Parse(name).value.1);
    }
  }

  lemma AnotherName(names: set<string>, event: string, found: set<nat>, name: string)
    requires AttemptsAmong(names, event, found)
    ensures AttemptsAmong(names + {name}, event,
      if Parse(name).Some? && Parse(name).value.0 == event then found + {Parse(name).value.1} else found)
  {
    hide Parse;
  }

  /** `_records`: succeeds exactly when the directory is readable, with the one history it holds. */
  method ReadRecords<I(==, !new), P(!new)>(dir: Directory<I, P>, event: string)
    returns (history: Option<seq<Record<I, P>>>)
    ensures history.Some? <==> IsSlug(event) && Readable(dir, event)
    ensures history.Some? ==> Holds(dir, event, history.value)
  {
    hide Readable, Holds, MayFollow, Parse, OneTo, Filename;
    if !IsSlug(event) {
      return None;
    }
    var attempts := ListAttempts(dir, event);
    if attempts.None? {
      assert !Readable(dir, event) by { UnrecognisedIsUnreadable(dir, event); }
      return None;
    }
    AttemptsOfDirectory(dir, event, attempts.value);
    var count := |attempts.value|;
    if attempts.value != OneTo(count) {
      GapIsUnreadable(dir, event, attempts.value);
      return None;
    }
    OneToSize(count);
    var records: seq<Record<I, P>> := [];
    for i := 0 to count
      invariant |records| == i && Collected(dir, event, records)
    {
      hide Collected;
      assert i + 1 in attempts.value;
      var content := dir[Filename(event, i + 1)];
      if !content.Whole? || content.record.event != event || content.record.attempt != i + 1
         || (i > 0 && !MayFollow(records[i - 1], content.record))
      {
        BadFileIsUnreadable(dir, event, records);
        return None;
      }
      CollectNext(dir, event, records, content.record);
      records := records + [content.record];
    }
    CollectedAll(dir, event, attempts.value, records);
    return Some(records);
  }

  /** The first records of an event, read and checked. */
  ghost predicate Collected<I, P>(dir: Directory<I, P>, event: string, records: seq<Record<I, P>>)
  {
    (forall i | 0 <= i < |records| :: FileIs(dir, Filename(event, i + 1), records[i])) && ValidHistory(event, records)
  }

  lemma CollectNext<I, P>(dir: Directory<I, P>, event: string, records: seq<Record<I, P>>, record: Record<I, P>)
    requires Collected(dir, event, records) && FileIs(dir, Filename(event, |records| + 1), record)
    requires record.event == event && record.attempt == |records| + 1
    requires records != [] ==> MayFollow(records[|records| - 1], record)
    ensures Collected(dir, event, records + [record])
  {
    hide MayFollow, Filename;
  }

  lemma CollectedAll<I(!new), P(!new)>(dir: Directory<I, P>, event: string, attempts: set<nat>,
                                       records: seq<Record<I, P>>)
    requires AllRecognised(dir) && Collected(dir, event, records) && attempts == OneTo(|records|)
    requires forall a: nat :: a in attempts <==> HasAttempt(dir, event, a)
    ensures Holds(dir, event, records) && Readable(dir, event)
  {
    hide HasAttempt;
    OneToSize(|records|);
  }

  lemma UnrecognisedIsUnreadable<I(!new), P(!new)>(dir: Directory<I, P>, event: string)
    requires !AllRecognised(dir)
    ensures !Readable(dir, event)
  {
  }

  lemma GapIsUnreadable<I(!new), P(!new)>(dir: Directory<I, P>, event: string, attempts: set<nat>)
    requires forall a: nat :: a in attempts <==> HasAttempt(dir, event, a)
    requires attempts != OneTo(|attempts|)
    ensures !Readable(dir, event)
  {
    hide HasAttempt;
    forall history ensures !Holds(dir, event, history) {
      OneToSize(|history|);
      if Holds(dir, event, history) { SameAttempts(attempts, |history|); }
    }
  }

  lemma SameAttempts(attempts: set<nat>, n: nat)
    requires forall a: nat :: a in attempts <==> 1 <= a <= n
    ensures attempts == OneTo(|attempts|)
  {
    OneToSize(n);
    assert attempts == OneTo(n);
  }

  function OneTo(n: nat): set<nat>
  {
    if n == 0 then {} else OneTo(n - 1) + {n}
  }

  lemma {:induction false} OneToSize(n: nat)
    ensures |OneTo(n)| == n && forall a: nat :: a in OneTo(n) <==> 1 <= a <= n
  {
    if n > 0 { OneToSize(n - 1); }
  }

  /** What a history the directory holds says of one attempt's file. */
  lemma HeldFile<I, P>(dir: Directory<I, P>, event: string, history: seq<Record<I, P>>, i: nat)
    requires Holds(dir, event, history) && HasAttempt(dir, event, i + 1)
    ensures i < |history| && FileIs(dir, Filename(event, i + 1), history[i])
    ensures history[i].event == event && history[i].attempt == i + 1
    ensures i > 0 ==> MayFollow(history[i - 1], history[i])
  {
    assert HasAttempt(dir, event, i + 1) <==> 1 <= i + 1 <= |history|;
    assert i > 0 ==> MayFollow(history[i - 1], history[i - 1 + 1]);
  }

  lemma HeldPrefix<I, P>(dir: Directory<I, P>, event: string, history: seq<Record<I, P>>, records: seq<Record<I, P>>)
    requires Holds(dir, event, history) && Collected(dir, event, records)
    ensures forall i | 0 <= i < |records| && i < |history| :: records[i] == history[i]
  {
    forall i | 0 <= i < |records| && i < |history| ensures records[i] == history[i] {
      assert FileIs(dir, Filename(event, i + 1), records[i]) && FileIs(dir, Filename(event, i + 1), history[i]);
    }
  }

  lemma BadFileIsUnreadable<I(!new), P(!new)>(dir: Directory<I, P>, event: string, records: seq<Record<I, P>>)
    requires Collected(dir, event, records) && HasAttempt(dir, event, |records| + 1)
    requires var i := |records|;
      var content := dir[Filename(event, i + 1)];
      !content.Whole? || content.record.event != event || content.record.attempt != i + 1
      || (i > 0 && !MayFollow(records[i - 1], content.record))
    ensures !Readable(dir, event)
  {
    hide Holds, MayFollow, Filename, HasAttempt, Collected;
    forall history ensures !Holds(dir, event, history) {
      if Holds(dir, event, history) {
        HeldPrefix(dir, event, history, records);
        HeldFile(dir, event, history, |records|);
      }
    }
  }

  // ----- All events at once -----

  function Lookup<I, P>(histories: map<string, seq<Record<I, P>>>, event: string): seq<Record<I, P>>
  {
    if event in histories then histories[event] else []
  }

  /** The directory is readable for every event, and holds these histories. */
  ghost predicate AllHold<I, P>(dir: Directory<I, P>, histories: map<string, seq<Record<I, P>>>)
  {
    AllRecognised(dir) && forall event | IsSlug(event) :: Holds(dir, event, Lookup(histories, event))
  }

  /** Adding, filling or removing a temporary file changes no history. */
  lemma TemporaryIsInvisible<I, P>(dir: Directory<I, P>, histories: map<string, seq<Record<I, P>>>, name: string,
                                   content: Content<I, P>)
    requires AllHold(dir, histories) && IsTemporary(name)
    ensures AllHold(dir[name := content], histories) && AllHold(dir - {name}, histories)
  {
    hide Holds, Filename;
    forall event | IsSlug(event)
      ensures Holds(dir[name := content], event, Lookup(histories, event))
      ensures Holds(dir - {name}, event, Lookup(histories, event))
    {
      forall a: nat ensures Filename(event, a) != name { AttemptFilesAreNeither(event, a); }
      SameFiles(dir, dir[name := content], event, Lookup(histories, event));
      SameFiles(dir, dir - {name}, event, Lookup(histories, event));
    }
  }

  lemma SameFiles<I, P>(dir: Directory<I, P>, next: Directory<I, P>, event: string, history: seq<Record<I, P>>)
    requires Holds(dir, event, history)
    requires forall a: nat | a <= LAST_ATTEMPT :: Filename(event, a) in next <==> Filename(event, a) in dir
    requires forall a: nat | a <= LAST_ATTEMPT && Filename(event, a) in next && Filename(event, a) in dir ::
      next[Filename(event, a)] == dir[Filename(event, a)]
    ensures Holds(next, event, history)
  {
    hide Filename;
    forall a: nat ensures HasAttempt(next, event, a) <==> 1 <= a <= |history| {
      assert HasAttempt(dir, event, a) <==> 1 <= a <= |history|;
    }
    forall i | 0 <= i < |history| ensures FileIs(next, Filename(event, i + 1), history[i]) {
      assert HasAttempt(dir, event, i + 1) && FileIs(dir, Filename(event, i + 1), history[i]);
    }
  }

  /** Two attempts, of one event or of two, never share a file. */
  lemma FilesDiffer(event: string, attempt: nat, other: string, a: nat)
    requires IsSlug(event) && IsSlug(other) && attempt <= LAST_ATTEMPT && a <= LAST_ATTEMPT
    ensures Filename(other, a) == Filename(event, attempt) <==> other == event && a == attempt
  {
    if Filename(other, a) == Filename(event, attempt) { DifferentAttempts(other, a, event, attempt); }
  }

  lemma InstalledHere<I, P>(dir: Directory<I, P>, event: string, attempt: nat, record: Record<I, P>,
                            before: seq<Record<I, P>>, history: seq<Record<I, P>>)
    requires Holds(dir, event, before) && IsSlug(event) && 1 <= attempt <= LAST_ATTEMPT
    requires || (attempt == |before| + 1 && history == before + [record])
             || (attempt <= |before| && history == before[attempt - 1 := record])
    requires ValidHistory(event, history)
    ensures Holds(dir[Filename(event, attempt) := Whole(record)], event, history)
  {
    hide Filename, ValidHistory;
    var next := dir[Filename(event, attempt) := Whole(record)];
    forall a: nat ensures HasAttempt(next, event, a) <==> 1 <= a <= |history| {
      if a <= LAST_ATTEMPT { FilesDiffer(event, attempt, event, a); }
      assert HasAttempt(dir, event, a) <==> 1 <= a <= |before|;
    }
    forall i | 0 <= i < |history| ensures FileIs(next, Filename(event, i + 1), history[i]) {
      assert HasAttempt(next, event, i + 1);
      FilesDiffer(event, attempt, event, i + 1);
      if i + 1 != attempt { assert FileIs(dir, Filename(event, i + 1), before[i]); }
    }
  }

  /** Installing one attempt's record: the event's history follows, every other stays. */
  lemma Installed<I, P>(dir: Directory<I, P>, histories: map<string, seq<Record<I, P>>>, event: string, attempt: nat,
                        record: Record<I, P>, history: seq<Record<I, P>>)
    requires AllHold(dir, histories) && IsSlug(event) && 1 <= attempt <= LAST_ATTEMPT
    requires var before := Lookup(histories, event);
      || (attempt == |before| + 1 && history == before + [record])
      || (attempt <= |before| && history == before[attempt - 1 := record])
    requires ValidHistory(event, history)
    ensures AllHold(dir[Filename(event, attempt) := Whole(record)], histories[event := history])
  {
    hide Filename, ValidHistory, HasAttempt, FileIs;
    var next := dir[Filename(event, attempt) := Whole(record)];
    FilenameReadsBack(event, attempt);
    InstalledHere(dir, event, attempt, record, Lookup(histories, event), history);
    hide Holds;
    forall e | IsSlug(e) ensures Holds(next, e, Lookup(histories[event := history], e)) {
      if e != event {
        forall a: nat | a <= LAST_ATTEMPT ensures Filename(e, a) != Filename(event, attempt) {
          FilesDiffer(event, attempt, e, a);
        }
        SameFiles(dir, next, e, Lookup(histories, e));
      }
    }
  }

  /** No event of a lost directory can be read. */
  predicate Lost<I, P>(dir: Directory<I, P>)
  {
    !AllRecognised(dir)
  }

  lemma LostIsUnreadable<I(!new), P(!new)>(dir: Directory<I, P>, event: string)
    requires Lost(dir)
    ensures !Readable(dir, event)
  {
  }

  /** An attempt number that does not fit six digits loses the whole directory: no event's records can be
      read any more. */
  lemma LostWith<I(!new), P(!new)>(dir: Directory<I, P>, event: string, attempt: nat, content: Content<I, P>,
                       temporary: string, other: string)
    requires IsSlug(event) && attempt > LAST_ATTEMPT && IsTemporary(temporary)
    ensures Lost(dir[Filename(event, attempt) := content])
    ensures Lost(dir[Filename(event, attempt) := content] - {temporary})
    ensures !Readable(dir[Filename(event, attempt) := content] - {temporary}, other)
  {
    FilenameReadsBack(event, attempt);
    AttemptFilesAreNeither(event, attempt);
    assert !Recognised(Filename(event, attempt));
    LostIsUnreadable(dir[Filename(event, attempt) := content] - {temporary}, other);
  }

  // ----- The store -----

  datatype Written = Done | Refused | Killed

  /** The directory of one journal. A write performs its file operations one by one and is killed
      when `operations` of them are done. */
  class Store<I(==, !new), P(!new)> {
    var dir: Directory<I, P>
    /** What each event's files hold. */
    ghost var histories: map<string, seq<Record<I, P>>>

    ghost predicate Valid()
      reads this
    {
      AllHold(dir, histories)
    }

    constructor ()
      ensures Valid() && histories == map[]
    {
      dir, histories := map[".lock" := Partial], map[];
      new;
      forall event, a: nat | IsSlug(event) ensures !HasAttempt(dir, event, a) { AttemptFilesAreNeither(event, a); }
    }

    /** `read`: the latest attempt, from the one history the directory holds. */
    method Read(event: string) returns (latest: Option<Record<I, P>>)
      requires Valid() && IsSlug(event)
      ensures latest == (var history := Lookup(histories, event);
                         if history == [] then None else Some(history[|history| - 1]))
    {
      var history := ReadRecords(dir, event);
      assert Holds(dir, event, Lookup(histories, event));
      HistoryIsUnique(dir, event, history.value, Lookup(histories, event));
      latest := if history.value == [] then None else Some(history.value[|history.value| - 1]);
    }

    /** `write_in_flight`: temporary, link, unlink. A kill leaves the old history or the new one, until
        the attempt number outgrows its six digits: installing that file loses the whole journal. */
    method WriteInFlight(record: Record<I, P>, temporary: string, operations: nat) returns (written: Written)
      requires Valid() && IsSlug(record.event) && IsTemporary(temporary)
      modifies this
      ensures var before := Lookup(old(histories), record.event);
        && (written == Refused <==> !MayStart(before, record) || temporary in old(dir))
        && (written == Refused ==> dir == old(dir) && histories == old(histories))
        && (record.attempt <= LAST_ATTEMPT ==>
             && Valid()
             && (written == Done ==> histories == old(histories)[record.event := before + [record]])
             && (written == Killed ==>
                  histories == old(histories) || histories == old(histories)[record.event := before + [record]]))
      ensures record.attempt > LAST_ATTEMPT ==>
        && (written == Done ==> Lost(dir))
        && (written == Killed ==> (Valid() && histories == old(histories)) || Lost(dir))
    {
      hide AllHold, ValidHistory, MayStart, Filename, Lost;
      var history := KnownHistory(record.event);
      if !MayStart(history, record) || temporary in dir {
        return Refused;
      }
      StartAppends(record.event, history, record);
      if operations < 1 {
        return Killed;
      }
      TemporaryIsInvisible(dir, histories, temporary, Partial);
      dir := dir[temporary := Partial];
      if operations < 2 {
        return Killed;
      }
      TemporaryIsInvisible(dir, histories, temporary, Whole(record));
      dir := dir[temporary := Whole(record)];
      if operations < 3 {
        return Killed;
      }
      if record.attempt <= LAST_ATTEMPT {
        Installed(dir, histories, record.event, record.attempt, record, history + [record]);
        histories := histories[record.event := history + [record]];
      } else {
        LostWith(dir, record.event, record.attempt, Whole(record), temporary, record.event);
      }
      dir := dir[Filename(record.event, record.attempt) := Whole(record)];
      if operations < 4 {
        return Killed;
      }
      if record.attempt <= LAST_ATTEMPT { TemporaryIsInvisible(dir, histories, temporary, Partial); }
      dir := dir - {temporary};
      return Done;
    }

    /** `replace_completed`: temporary, then one rename over the in-flight file. */
    method ReplaceCompleted(record: Record<I, P>, temporary: string, operations: nat) returns (written: Written)
      requires Valid() && IsSlug(record.event) && IsTemporary(temporary)
      modifies this
      ensures Valid()
      ensures var before := Lookup(old(histories), record.event);
        && (written == Refused <==> !MayComplete(before, record) || temporary in old(dir))
        && (written == Refused ==> dir == old(dir) && histories == old(histories))
        && (written != Refused ==> 0 < record.attempt <= |before|)
        && (written == Done ==> histories == old(histories)[record.event := before[record.attempt - 1 := record]])
        && (written == Killed ==> histories == old(histories))
    {
      hide AllHold, ValidHistory, Filename;
      var history := KnownHistory(record.event);
      if !MayComplete(history, record) || temporary in dir {
        return Refused;
      }
      CompleteReplaces(record.event, history, record);
      if operations < 1 {
        return Killed;
      }
      TemporaryIsInvisible(dir, histories, temporary, Partial);
      dir := dir[temporary := Partial];
      if operations < 2 {
        return Killed;
      }
      TemporaryIsInvisible(dir, histories, temporary, Whole(record));
      dir := dir[temporary := Whole(record)];
      if operations < 3 {
        return Killed;
      }
      TemporaryIsInvisible(dir, histories, temporary, Partial);
      AttemptsFit(dir, histories, record.event, record.attempt);
      Installed(dir - {temporary}, histories, record.event, record.attempt, record,
                history[record.attempt - 1 := record]);
      dir := (dir - {temporary})[Filename(record.event, record.attempt) := Whole(record)];
      histories := histories[record.event := history[record.attempt - 1 := record]];
      return Done;
    }

    method KnownHistory(event: string) returns (history: seq<Record<I, P>>)
      requires Valid() && IsSlug(event)
      ensures history == Lookup(histories, event) && ValidHistory(event, history)
    {
      var read := ReadRecords(dir, event);
      assert Holds(dir, event, Lookup(histories, event));
      HistoryIsUnique(dir, event, read.value, Lookup(histories, event));
      history := read.value;
    }
  }

  lemma StartAppends<I, P>(event: string, history: seq<Record<I, P>>, record: Record<I, P>)
    requires ValidHistory(event, history) && record.event == event && MayStart(history, record)
    ensures ValidHistory(event, history + [record]) && record.attempt == |history| + 1
  {
    StartKeepsValid(event, history, record);
  }

  lemma CompleteReplaces<I, P>(event: string, history: seq<Record<I, P>>, record: Record<I, P>)
    requires ValidHistory(event, history) && record.event == event && MayComplete(history, record)
    ensures 0 < record.attempt <= |history| && ValidHistory(event, history[record.attempt - 1 := record])
  {
    CompleteKeepsValid(event, history, record);
  }

  lemma AttemptsFit<I, P>(dir: Directory<I, P>, histories: map<string, seq<Record<I, P>>>, event: string, attempt: nat)
    requires AllHold(dir, histories) && IsSlug(event) && 1 <= attempt <= |Lookup(histories, event)|
    ensures attempt <= LAST_ATTEMPT
  {
    assert Holds(dir, event, Lookup(histories, event));
    assert HasAttempt(dir, event, attempt);
  }
}
