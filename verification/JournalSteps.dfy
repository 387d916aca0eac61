/** The journal of the step system and the directory it stands for. A write the step system takes in one
    step is several file operations on disk, and the process can be killed between any two of them. */
module JournalSteps {
  import opened Markers
  import opened Scenarios
  import opened AttemptFiles
  import opened Records
  import opened Actions
  import opened JournalFiles
  import opened ReplayMachine

  /** The directory holds the journal, or, where an attempt number outgrew its digits, nothing can be read. */
  ghost predicate Mirrors(store: Store<Identity, IdTable>, journal: Journal)
    reads store
  {
    if ReplayMachine.Readable(journal) then store.Valid() && store.histories == journal else Lost(store.dir)
  }

  /** The process is about to write a record. */
  predicate Writes(scenario: Scenario, process: Process)
  {
    (process.Recording? || process.Answered? || process.Settled?) && process.k < |scenario.events|
  }

  /** The record it is about to write. */
  function RecordOf(scenario: Scenario, process: Process): Attempt
    requires Writes(scenario, process)
  {
    var event := scenario.events[process.k];
    var identity := IdentityOf(scenario, event);
    match process
    case Recording(_, _, attempt, _) => InFlight(event.name, attempt, identity)
    case Answered(_, _, attempt, made) => Completed(event.name, attempt, identity, made, Advance)
    case Settled(_, _, attempt, _, verdict) => Completed(event.name, attempt, identity, verdict.ids, verdict.next)
  }

  /** The journal with the record written; the journal as it was if the record is not admitted. */
  function JournalWith(journal: Journal, record: Attempt): Journal
  {
    var history := Lookup(journal, record.event);
    if !ReplayMachine.Readable(journal) then journal
    else if MayStart(history, record) then journal[record.event := history + [record]]
    else if MayComplete(history, record) then journal[record.event := history[record.attempt - 1 := record]]
    else journal
  }

  lemma StepWrites(scenario: Scenario, s: State, chance: Chance)
    requires Declared(scenario) && Writes(scenario, s.process)
    ensures Do(scenario, s, Next(chance)).journal == JournalWith(s.journal, RecordOf(scenario, s.process))
    ensures JournalWith(s.journal, RecordOf(scenario, s.process)) == s.journal
        ==> Do(scenario, s, Next(chance)) == s.(process := Down)
  {
    hide IdentityOf, ReplayMachine.Readable;
    var record := RecordOf(scenario, s.process);
    var history := Lookup(s.journal, record.event);
    if MayStart(history, record) { assert |history + [record]| != |history|; }
    if MayComplete(history, record) { assert history[record.attempt - 1 := record] != history; }
  }

  /** Only an attempt number past its digits makes a readable journal unreadable. */
  lemma JournalWithReads(journal: Journal, record: Attempt)
    requires ReplayMachine.Readable(journal)
    requires MayStart(Lookup(journal, record.event), record) || MayComplete(Lookup(journal, record.event), record)
    ensures ReplayMachine.Readable(JournalWith(journal, record)) <==> record.attempt <= LAST_ATTEMPT
    ensures MayComplete(Lookup(journal, record.event), record) ==> record.attempt <= LAST_ATTEMPT
  {
    var after := JournalWith(journal, record);
    assert record.event in after;
    assert record.event in journal ==> |journal[record.event]| <= LAST_ATTEMPT;
    if record.attempt <= LAST_ATTEMPT {
      forall name | name in after ensures |after[name]| <= LAST_ATTEMPT {
        if name != record.event { assert after[name] == journal[name]; }
      }
    }
  }

  /** The two writing methods of the store, against a journal the directory mirrors. */
  method WriteAttempt(store: Store<Identity, IdTable>, ghost journal: Journal, record: Attempt, temporary: string,
                      operations: nat) returns (written: Written)
    requires IsSlug(record.event) && Mirrors(store, journal) && IsTemporary(temporary) && temporary !in store.dir
    modifies store
    ensures var after := JournalWith(journal, record);
      match written
      case Done => Mirrors(store, after)
      case Refused => after == journal && Mirrors(store, journal)
      case Killed => Mirrors(store, journal) || Mirrors(store, after)
  {
    hide Lost, ReplayMachine.Readable, JournalFiles.Readable, AllHold, MayStart, MayComplete;
    var read := ReadRecords(store.dir, record.event);
    ReadsWhereMirrored(store, journal, record.event);
    if read.None? {
      return Refused;
    }
    if MayStart(Lookup(journal, record.event), record) || MayComplete(Lookup(journal, record.event), record) {
      JournalWithReads(journal, record);
    }
    OneKind(Lookup(journal, record.event), record);
    if record.InFlight? {
      written := store.WriteInFlight(record, temporary, operations);
    } else {
      written := store.ReplaceCompleted(record, temporary, operations);
    }
  }

  lemma OneKind(history: seq<Attempt>, record: Attempt)
    ensures MayStart(history, record) ==> record.InFlight?
    ensures MayComplete(history, record) ==> record.Completed?
  {
  }

  lemma ReadsWhereMirrored(store: Store<Identity, IdTable>, journal: Journal, event: string)
    requires Mirrors(store, journal) && IsSlug(event)
    ensures JournalFiles.Readable(store.dir, event) <==> ReplayMachine.Readable(journal)
  {
    if ReplayMachine.Readable(journal) {
      assert Holds(store.dir, event, Lookup(journal, event));
    } else {
      LostIsUnreadable(store.dir, event);
    }
  }

  /** A record written to disk, killed after any number of file operations, leaves the journal as it was
      before the step or as the step makes it: a state the step system reaches by a crash before or after. */
  method WriteRecord(store: Store<Identity, IdTable>, scenario: Scenario, s: State, chance: Chance,
                     temporary: string, operations: nat) returns (written: Written)
    requires Loaded(scenario) && Declared(scenario) && Writes(scenario, s.process)
    requires Mirrors(store, s.journal) && IsTemporary(temporary) && temporary !in store.dir
    modifies store
    ensures var before, after := Do(scenario, s, Crash), Do(scenario, s, Next(chance));
      match written
      case Done => Mirrors(store, after.journal)
      case Refused => after == before && Mirrors(store, before.journal)
      case Killed => Mirrors(store, before.journal) || Mirrors(store, Do(scenario, after, Crash).journal)
  {
    hide Lost, ReplayMachine.Readable, AllHold, MayStart, MayComplete, JournalWith, Proceed;
    StepWrites(scenario, s, chance);
    assert EventResolves(scenario.emails, scenario.events, s.process.k);
    var record := RecordOf(scenario, s.process);
    written := WriteAttempt(store, s.journal, record, temporary, operations);
  }
}
