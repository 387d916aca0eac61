# bzr-live: a verified model

bzr-live keeps a pinned Bugzilla fixture for experiments with the `bzr` command line. A *scenario* is a
declared list of events (create a bug, update it, comment, attach, …). *Replay* sends the events to the
server one by one through `bzr`, writing a journal record before and after each, and *resume* carries on
from the journal after any interruption. *Verify* folds the scenario into the state it should leave behind
and compares that with what the server holds. *Checkpoint* saves the fixture (two volumes and the runner
state directory) as a bundle and restores it.

This project models those parts and proves what they promise. `dafny verify dfyconfig.toml` checks all of it.

## What the model covers

**Crash-safe replay.** `ReplayMachine` is a step system over a durable journal, the server, and a process
that may be killed between any two steps, lose the reply to a committed mutation, or get an answer to a
query that reads as absent or that it does not recognise. A run is any list of moves: `replay`, `resume`,
a crash, or one step of the live process. `ReplaySafety` has the invariant that every move keeps;
`ReplayTheorems`, `Threads`, `Completion` and `Runner` draw the consequences. `ReplayEngines` is the engine
in its own form, classes whose methods run the event loop, and each thing a method does is shown to be a step
of that system, so the theorems speak about the loop. `Residue` shows that what other scenarios left on the
server stays as it was, and `Adoption` what becomes of a create event whose alias is somebody else's before the
first run. `Courses` builds runs event by event, to show that
whatever the analysis allows to go wrong does go wrong in some run. `Limits` says where the promises stop, with
an input each.

**The fold and delta replay.** `Actions` builds requests and decides reconciliation, `Fixtures` is the server,
`Expected` is the fold as functions and `FoldEngine` as the handlers that edit bugs in place. `Simulation`
proves that one committed request keeps the server in agreement with one fold step, and `Recovery` extends
that to requests sent twice and to events taken as already satisfied. `Deliveries` puts the steps together:
delta replay of a whole scenario against the fold of its events. Where server and fold can come apart, agreement
is stated with explicit *gaps* (`Simulation.Gaps`): the logins that may, and those that must, be missing from a
bug's CC, the bugs whose self-edge may, and those whose self-edge must, stand the other way, and the attachments
given a new description. Everything else agrees outright.

**Verification searches.** `ChainOrder` is the budgeted search for the order of one field's history records,
`LinkGraph` the breadth-first walk, `ResourcePlan` the topological sort of a scenario's resources.

**Journal.** `AttemptFiles`, `Records` and `JournalFiles` are the attempt files, the history they must form and
the store that installs them through temporary files, and `JournalSteps` shows that a write killed between any
two of its file operations is a state of the step system; `RecordCodec` and `Redaction` are the encoder, the
decoder and the secret remover, over JSON trees.

**Checkpoints.** `Archives` is the path trie, `Extraction` what an accepted archive becomes, `RunnerTree` the
walk, the archive and the round trip, `CheckpointSave` and `CheckpointRestore` the two phase machines,
`Fingerprint` the framing of the bytes that are hashed.

## What is assumed

- One process writes, and a mutation that commits has committed by the time its outcome is reconciled.
- The first run starts on a server where no create event's alias is live (`Fixtures.Pristine`). Anything else may
  be there: bugs, attachments, edges and aliases of other scenarios. `Adoption` says what happens where an alias is
  live already.
- Comment and attachment lists, when they answer, are complete. The default comment read may hide private
  comments (`src/bzr_live/verify/observed.py:36-46`); the theorems hold for a reader that sees them all.
- The server refuses a live alias, keeps the two ends of a dependency edge in step, puts a flag's requestee on
  CC, hands out increasing positive ids, and adds no comment or attachment of its own.
- The server takes any bug as a duplicate of any other, sets status RESOLVED and resolution DUPLICATE on it, and
  keeps the mark whatever happens later. Bugzilla refuses loops and clears the mark when a bug is reopened.
- The bugs of one scenario get different server aliases (`Scenarios.DistinctAliases`): no collision of the
  31-digit digest prefix in `src/bzr_live/scenario/loader.py:744-747`.
- The invoking user is not root: a file whose mode denies its owner cannot be opened.
- Event and scenario names are slugs, references resolve, and texts carry no marker, because the loader and
  `check_supported` refuse anything else (`Scenarios.Loaded`, `Scenarios.Replayable`). `Scenarios.ValidateEvents`
  is the loader's part of that check, `ReplayEngines.ReplayEngine.CheckLocalPreconditions` the engine's.

## Results that are not what one might expect

- `resume` on an empty journal makes no sweep. Where the alias of a create event is another bug's before the first
  run, one exit status 2 on the absence check lets the event be sent; the server refuses it, and reconciliation takes
  the other bug for the event's own. `Limits.AdoptsForeign` has such a run of a one-event scenario on any server, and
  `Limits.MisreadAdopts` the step for any create event of any scenario. `Adoption.AdoptedExactly`: a finished run has
  adopted a foreign bug exactly for those create events whose alias was live at the start. `Adoption.NeverAdopted`:
  without an exit status 2 such an event is never sent, recorded or adopted, and no run finishes.
  `Adoption.SweepRefuses`: a replay whose reads are answered stops at the sweep exactly where some alias is live.
- A `dupe_of` link runs one way, so two bugs of a folded scenario need not reach each other over the same distances
  (`LinkGraph.DuplicateIsOneWay`). They do exactly when every duplicate link is answered by some link back
  (`LinkGraph.DistancesAreSymmetric`).
- A regular file its owner cannot read passes the validation of the runner tree and then stops the archive
  (`RunnerTree.WalkedNotArchived`; `RunnerTree.CreateArchive` has the exact condition). What a round trip has given
  back can always be saved again (`RunnerTree.MaskedSettles`).
- A save killed between `mkdir` and the written marker, or between the marker's removal and the rename, leaves a
  staging directory that no later run removes; killed anywhere else, the next run clears it up
  (`CheckpointSave.CleanUpAfter`).
- A `retry` record proves that an append did not commit, but not that a create did not: exit status 2 on the
  alias query reads as "absent" whatever the server holds. `Limits.CreateRetryMisleads` gives the exact
  condition and `Limits.CreateRetryAfterCommit` a run. Exactly-once survives, because the server refuses the
  live alias (`ReplaySafety.LiveAliasRefuses`).
- A flag event whose own request is already pending is taken as done without being sent, so the server's CC
  stays as it was while the fold adds the requestee (`Limits.AdoptedFlagAgrees`, `Limits.PendingFlagSkipsCc`;
  `Limits.AskedTwice` is a scenario). `Recovery.Missing` lists, for each scenario, the logins this can keep off a
  bug's CC at the end; `Courses.CcExact` proves the list exact: an expected login is on the server's CC after every
  finished run exactly when it is not listed. Without faults nothing is ever missing.
- An update that declares a self-edge on one side only leaves the bug's self-edge as the fold has it or the other
  way round, according to whether it was committed an odd or an even number of times, because both deltas come
  from one read (`Limits.DependsOnItself` is a scenario). `Recovery.Loose` lists the bugs concerned at the end;
  `Courses.SelfEdgeExact` proves that list exact too. Every edge between two different bugs stands as folded after
  every finished run.
- An `attachment.update` with a description replaces the marked summary by the bare description, while the fold
  expects it rendered again. `Limits.SummaryExactUnlessRenamed`: the summaries agree exactly when no such
  update has happened; `Limits.SummaryLost` is a scenario.
- A save whose new staging directory cannot be given its mode, be opened, or be given its marker file leaves that
  directory behind, empty: the handler's first deletion finds no marker, and the second is skipped. No later
  cleanup removes it (`CheckpointSave.StrandsStaging`). `CheckpointSave.Save.SaveCheckpoint` has the exact
  condition. An interrupted cleanup can be repeated, unless the fault falls between the marker's deletion and the
  directory's.
- An attempt number above 999999 no longer matches the file-name pattern, and then no event of the journal can
  be read (`JournalFiles.LostWith`).
- A runner tree whose names hold a backslash is archived, but the archive is then refused
  (`RunnerTree.AcceptableIffPortable`).

## Model

| member | source | states |
|---|---|---|
| ReplaySafety.StepKeepsInv | src/bzr_live/replay/engine.py:123-236 | every move (start, crash, lost reply, step) keeps the invariant that ties the latest record of each event, the number of its commits, the process and the server state together |
| ReplaySafety.RunKeepsInv | src/bzr_live/replay/engine.py:43-50 | every state that any sequence of replays, resumes and crashes reaches, from a server where no create event's alias is live, satisfies that invariant |
| ReplaySafety.VerdictSound | src/bzr_live/replay/actions.py:215-251 | a reconciliation verdict can be acted on: advance means the server is where the event leaves it, retry of an append means nothing was committed |
| ReplaySafety.CommitKeepsServer | src/bzr_live/replay/engine.py:187-199 | a committed mutation takes the server from where the earlier events put it to where this event puts it, first time or repeated |
| ReplaySafety.LiveAliasRefuses | src/bzr_live/replay/engine.py:104-121 | once a create has committed, the server refuses the rebuilt request, so a wrong retry cannot commit twice |
| ReplayTheorems.AtMostOnce | src/bzr_live/replay/engine.py:139-225 | in every reachable state each create and append event has committed at most once |
| ReplayTheorems.ExactlyOnce | src/bzr_live/replay/engine.py:139-225 | a run that ends without error leaves each create and append event committed exactly once |
| ReplayTheorems.RecordsTellCommits | src/bzr_live/replay/engine.py:139-170 | no record means no commit, retry on an append means no commit, advance on a create or append means exactly one |
| ReplayTheorems.ProgressIsPrefix | src/bzr_live/replay/engine.py:123-137 | the events recorded as done are a prefix of the scenario and only the next one may have any record |
| ReplayTheorems.EnteringTable | src/bzr_live/replay/context.py:87-99 | on entering an event the id table is the union of the earlier events' recorded ids and names exactly what they created |
| ReplayTheorems.BuildNeverFails | src/bzr_live/replay/context.py:87-96 | no reference of a loaded scenario fails to resolve when its event's request is built |
| ReplayTheorems.EndToEnd | src/bzr_live/verify/expected.py:435-451 | a run that ends without error, however faulty, leaves the server agreeing with the fold of the whole scenario: every field, name set, edge, thread and attachment, but for the gaps the analysis lists |
| Residue.OthersUntouched | docs/adr/0006-actor-scoped-event-replay.md:106-114 | in every reachable state every bug, attachment and alias that stood on the server before the first run is as it was |
| Residue.NothingElse | src/bzr_live/replay/engine.py:123-137 | after a run that ends without error every bug and attachment was there at the start or is one the id table names for the scenario |
| Residue.RunKeepsApart | src/bzr_live/replay/context.py:87-99 | in every reachable state the ids a run holds, records or is about to send are of bugs and attachments made since the start, and edges of new bugs end in new bugs |
| Adoption.CreatesCounted | src/bzr_live/replay/engine.py:139-225 | from any server at all: a create event has been committed once if its alias has become live since the start and never otherwise, and a live alias goes on leading to the same bug |
| Adoption.AdoptedExactly | src/bzr_live/replay/actions.py:352-366 | from any server: a finished run holds for a create event the bug its alias leads to, and it is one the event did not make exactly when the alias was live at the start |
| Adoption.NeverAdopted | src/bzr_live/replay/engine.py:104-121 | where a create event's alias is live at the start and no query exits with status 2, no sequence of runs ever sends it, records it, holds an id for it, or finishes |
| Adoption.SweepDecides | src/bzr_live/replay/engine.py:117-121 | the sweep goes through exactly when every remaining absence check passes, and otherwise stops with server and journal unchanged |
| Adoption.SweepRefuses | docs/adr/0006-actor-scoped-event-replay.md:97-114 | a first run whose reads are answered starts on the events exactly when no create event's alias is live, and otherwise changes nothing |
| JournalSteps.WriteRecord | src/bzr_live/scenario/journal.py:870-943 | a record written for the engine and killed after any number of file operations leaves a directory that mirrors the journal before the step or after it, so every kill on disk is a crash of the step system |
| JournalSteps.StepWrites | src/bzr_live/replay/engine.py:172-236 | a step that writes changes the journal by its one record, and ends the run exactly when the record is not admitted |
| Threads.ThreadCountsCommits | src/bzr_live/replay/actions.py:203-212 | in every reachable state the marker count over the target's thread equals the event's number of commits |
| Threads.ListCountsCommits | src/bzr_live/replay/actions.py:203-212 | in every reachable state the marker count over the attachment list of an upload's bug equals the upload's number of commits until a description replaces its summary, and is 0 from then on |
| Threads.MarkerKept | src/bzr_live/verify/expected.py:299-315 | a comment event's marker stays at one place of its own bug's thread and nowhere else, through all later events |
| Completion.ResumeFinishes | src/bzr_live/replay/engine.py:49-50 | from every reachable state with no event recorded as ambiguous, a fault-free resume runs to the end |
| Completion.AmbiguousForever | src/bzr_live/replay/engine.py:150-153 | once an event is recorded as ambiguous nothing more is sent, written or finished, whatever is run |
| Completion.FinishableUnlessAmbiguous | src/bzr_live/replay/engine.py:139-170 | a reachable state can still be brought to the end exactly when no event is recorded as ambiguous |
| Deliveries.DeltaReplayRefinesFold | src/bzr_live/replay/actions.py:389-433 | for every loaded scenario delivered without faults: after each event every bug has the folded cc, keywords and groups, and every edge stands as folded, but for the self-edges whose last declaration was one-sided and slipped, which stand exactly the other way |
| Deliveries.DeliveryAgrees | src/bzr_live/replay/engine.py:172-199 | every request of such a delivery can be built and is accepted, and the server agrees with the fold in everything else as well |
| Deliveries.FaultlessIsExact | src/bzr_live/verify/expected.py:435-451 | in such a delivery no login is ever missing, and the events alone determine which self-edges have slipped |
| Deliveries.NothingSlips | src/bzr_live/verify/expected.py:245-250 | none has, if no update declared a self-edge on one side only |
| Courses.TakeCourse | src/bzr_live/replay/engine.py:123-170 | some run of the step system, with crashes and lost replies, delivers the events of any loaded scenario taking every pending flag as done and committing one chosen one-sided update twice, with exactly the gaps that course determines |
| Courses.CourseIsExact | src/bzr_live/replay/actions.py:631-657 | in such a course exactly the logins the analysis lists are missing |
| Courses.SlipIsAChoice | src/bzr_live/replay/actions.py:419-433 | where the analysis calls a self-edge loose, committing the last one-sided update once or twice decides which way it stands |
| Courses.CcFallsShort | src/bzr_live/verify/expected.py:380-391 | a listed login is expected on the bug's CC, and some run finishes without it there |
| Courses.CcExact | src/bzr_live/verify/expected.py:380-391 | an expected login is on the server's CC after every finished run exactly when the analysis does not list it as missing |
| Courses.SelfEdgeStrays | src/bzr_live/replay/actions.py:419-433 | a loose self-edge stands against the fold after some finished run |
| Courses.SelfEdgeExact | src/bzr_live/verify/expected.py:215-223 | a self-edge stands as folded after every finished run exactly when it is not loose |
| ReplaySafety.StartKeepsHistory | src/bzr_live/scenario/journal.py:870-903 | the in-flight write is never refused where replay makes it, and leaves the event a gap-free history of one identity |
| ReplaySafety.FinishKeepsHistory | src/bzr_live/scenario/journal.py:905-943 | the completed write is never refused where replay makes it, and leaves the event a gap-free history of one identity whose last record names what the event created if it says advance |
| ReplaySafety.TableKeys | src/bzr_live/replay/context.py:98-99 | adopting the recorded ids of the events done so far names exactly what those events create |
| ReplaySafety.SendCommits | src/bzr_live/replay/context.py:146-151 | a mutation that commits keeps the invariant, with the ids it made still to be recorded, whether or not its reply comes back |
| ReplayEngines.ReplayEngine.Complete | src/bzr_live/replay/engine.py:227-236 | writing the completed record and adopting its ids is a step of the system, or the run ends |
| ReplayEngines.ReplayEngine.Settle | src/bzr_live/replay/engine.py:201-225 | reconciling and recording the verdict are steps of the system; an advance adopts the ids, a failed read leaves the in-flight record |
| ReplayEngines.ReplayEngine.Execute | src/bzr_live/replay/engine.py:172-199 | in-flight record, mutation, completed record, in that order; executed means this run sent the mutation once; no other event's records change |
| ReplayEngines.ReplayEngine.Deliver | src/bzr_live/replay/engine.py:187-199 | the mutation and what its reply leads to: executed, reconciled in the run, or stopped with the next attempt left to resume |
| ReplayEngines.ReplayEngine.AdvanceEvent | src/bzr_live/replay/engine.py:139-170 | one event from its latest record: skipped and resumed send nothing, executed sends once, anything else ends the run |
| ReplayEngines.ReplayEngine.CheckLocalPreconditions | src/bzr_live/replay/engine.py:52-102 | passes exactly when replay can send every event, the journal is readable, names only this scenario's events and carries its digest, and returns each event's latest record |
| ReplayEngines.ReplayEngine.RunEvents | src/bzr_live/replay/engine.py:123-137 | the report covers every event in order, and the mutations sent are at least the executed and at most the executed and reconciled ones |
| ReplayEngines.ReplayEngine.SweepPristine | src/bzr_live/replay/engine.py:117-121 | the first event is entered exactly when every absence check of the sweep passes and the run is not killed before its end |
| ReplayEngines.ReplayEngine.ResumeRun | src/bzr_live/replay/engine.py:49-50 | resume of any loaded scenario from a reachable state leads to a reachable state, and when it returns, the scenario is delivered; one with an unsupported event is refused with nothing changed |
| ReplayEngines.ReplayEngine.ReplayRun | src/bzr_live/replay/engine.py:43-47 | replay refuses a journal with any record, a scenario with an unsupported event, and any server on which an absence check fails, each with nothing changed; otherwise as resume |
| ReplayEngines.FinishedDelivers | src/bzr_live/replay/engine.py:123-137 | a finished reachable state has each create and append event committed once and the server agreeing with the fold but for the listed gaps |
| Limits.CreateRetryMisleads | src/bzr_live/replay/actions.py:352-366 | after a create has committed, reconciliation says retry exactly when the alias query exits with status 2 |
| Limits.CreateRetryAfterCommit | src/bzr_live/provision/adapters.py:123-131 | a one-event scenario that replay accepts and a run of it whose record says retry while the create has committed |
| Limits.MisreadAdopts | src/bzr_live/replay/engine.py:104-115 | a create event whose alias is another bug's passes its absence check exactly on exit status 2, and a refused create and an answered read then record that bug as the event's own |
| Limits.AdoptsForeign | docs/adr/0006-actor-scoped-event-replay.md:100-104 | on any server where the alias of a one-event scenario is live, some resume finishes with nothing sent and the foreign bug as the scenario's own |
| Limits.AdoptedFlagAgrees | src/bzr_live/replay/actions.py:631-657 | a CC that agrees before an unsent flag event agrees after it exactly when its requestee, if any, was already expected there |
| Limits.PendingFlagSkipsCc | src/bzr_live/verify/expected.py:368-395 | from every reachable state entering a flag event whose own request is pending, some run completes it unsent: the fold has the requestee on CC, and the server does not unless it was expected there before |
| Limits.AskedTwice | src/bzr_live/replay/actions.py:631-657 | create, ask bob, clear the CC, ask bob again: replay accepts the scenario, and some run finishes with bob expected on the CC and missing there |
| Limits.DependsOnItself | src/bzr_live/replay/actions.py:419-433 | create, then declare that the bug depends on itself and blocks nothing: replay accepts the scenario, and some run finishes with the self-edge the fold does not have |
| Limits.SummaryExactUnlessRenamed | src/bzr_live/replay/actions.py:684-692 | an attachment's summary is the folded one exactly when no attachment.update has declared a description for it |
| Limits.SummaryLost | src/bzr_live/replay/actions.py:684-692 | create, attach, describe anew: replay accepts the scenario, and no finished run leaves the summary the fold expects |
| Simulation.DeltaReaches | src/bzr_live/replay/actions.py:141-145 | applying the add/remove delta to the list it was computed from gives exactly the declared members |
| Simulation.UpdateEdgesAgree | src/bzr_live/replay/actions.py:419-433 | both edge deltas of one update, taken from one read, leave every edge between two different bugs where the fold puts it |
| Simulation.SelfServed | src/bzr_live/replay/actions.py:419-433 | what the two deltas do to the bug's own self-edge: it ends as declared for blocks if that differs from the read, and as declared for depends_on otherwise |
| Simulation.UpdateSelvesAgree | src/bzr_live/verify/expected.py:215-223 | so it slips against the fold exactly as the gaps after the update say, and no other bug's self-edge moves |
| Simulation.CommitAgrees | src/bzr_live/replay/actions.py:389-433 | for every action and from any gaps, committing the built request and folding the event lead from agreeing states to agreeing states, under the id table the reply extends; which gaps are left is stated exactly |
| Simulation.BuildSucceeds | src/bzr_live/replay/context.py:87-96 | where the id table names what exists, building succeeds, and the server accepts everything but a create under a live alias |
| Recovery.AtCommit | src/bzr_live/replay/engine.py:187-199 | the first commit of the next event takes the server to the next point of the scenario: agreement, aliases, pending flags |
| Recovery.AtCommitAgain | src/bzr_live/replay/engine.py:163-170 | committing an idempotent event again leaves the server at the same point |
| Recovery.AtAdvance | src/bzr_live/replay/actions.py:435-460 | an advance verdict on an idempotent event is right whether or not the event was ever committed |
| Recovery.AdvanceIsSilent | src/bzr_live/replay/actions.py:435-460 | for idempotent events but flags, an advance verdict means that sending the request would change nothing, but for the status and resolution the server drives itself on a duplicate |
| Recovery.AppendVerdictBefore | src/bzr_live/replay/actions.py:215-251 | before an append commits, the verdict is retry if the list answers and stop if it does not |
| Recovery.AppendVerdictAfter | src/bzr_live/replay/actions.py:215-251 | after it has committed, the verdict is advance with exactly the id of what it made, or stop if the list does not answer |
| Recovery.CreateVerdictBefore | src/bzr_live/replay/actions.py:352-366 | before a create commits its alias is free and the verdict is retry, or stop for an unrecognised payload |
| Recovery.CreateVerdictAfter | src/bzr_live/replay/actions.py:352-366 | after it has committed the verdict is advance with the bug's id, retry on exit status 2, stop for an unrecognised payload |
| Expected.FoldSound | src/bzr_live/verify/expected.py:435-451 | the fold of a loaded scenario is defined at every event, covers exactly what was created, keeps edges on both ends and each attachment on its own bug |
| Expected.FoldEdgesSymmetric | src/bzr_live/verify/expected.py:215-223 | after every event b is in a's depends_on exactly when a is in b's blocks |
| Expected.LinksTwice | src/bzr_live/verify/expected.py:245-250 | declaring the same edge sets again changes nothing |
| Expected.FoldStepTwice | src/bzr_live/verify/expected.py:398-402 | folding an idempotent event twice is folding it once |
| Expected.FoldNext | src/bzr_live/verify/expected.py:435-451 | no event of a loaded scenario misses its target |
| FoldEngine.Folder.LinkDependsOn | src/bzr_live/verify/expected.py:215-223 | editing both ends in place gives the declared set and the matching inverse edges, and touches nothing else |
| FoldEngine.Folder.LinkBlocks | src/bzr_live/verify/expected.py:215-223 | the same for blocks |
| FoldEngine.Folder.LinkBoth | src/bzr_live/verify/expected.py:245-250 | both declared edge sets, depends_on first |
| FoldEngine.Folder.Create | src/bzr_live/verify/expected.py:191-212 | the new bug and its edges, every other bug as before but for inverse edges |
| FoldEngine.Folder.Update | src/bzr_live/verify/expected.py:259-296 | names replaced, scalars overlaid, edges relinked, the duplicate kept with the status and resolution it leaves to the server, and the resolution dropped when a status is declared without one |
| FoldEngine.Folder.UpdateAttachment | src/bzr_live/verify/expected.py:337-352 | the entry replaced in the table and in its bug's list |
| FoldEngine.Folder.EditOne | src/bzr_live/verify/expected.py:299-395 | comments, work time, attachments, custom fields and flags edit one bug |
| FoldEngine.Folder.Apply | src/bzr_live/verify/expected.py:398-402 | dispatch: the handlers in place compute one fold step |
| FoldEngine.FoldScenario | src/bzr_live/verify/expected.py:435-451 | the loop over all events computes the fold |
| Markers.MarkerInjective | src/bzr_live/scenario/loader.py:822 | two slug-built markers are equal only when scenario and event names are |
| Markers.UnmarkedHasNoToken | src/bzr_live/replay/actions.py:191-200 | text that passes the guard carries no event's token |
| Markers.TokenInRendered | src/bzr_live/replay/actions.py:191-200 | rendered text carries an event's token exactly when it was rendered for that event |
| Markers.CommentMarkerUnique | src/bzr_live/replay/actions.py:99-100 | the same for a comment body with its marker |
| Markers.SummaryMarkerUnique | src/bzr_live/replay/actions.py:103-104 | the same for an attachment summary, whatever the stripping removed |
| Scenarios.ValidateEvents | src/bzr_live/scenario/loader.py:695-843 | one growing pass accepts exactly the event lists with distinct names in which every event refers only to earlier bugs, attachments and declared actors and creates only what is new |
| Scenarios.CreatorsDiffer | src/bzr_live/scenario/loader.py:457-467 | two events of an accepted list never create the same thing |
| Runner.ResolveIds | src/bzr_live/verify/runner.py:82-102 | succeeds exactly when every event is recorded as done under this scenario, with the union of the recorded ids |
| Runner.RebuildsTheRunsTable | src/bzr_live/verify/runner.py:82-102 | after a run that ended without error, that union is the table the run ended with and names exactly what the scenario creates |
| LinkGraph.Reachable | src/bzr_live/verify/expected.py:467-485 | breadth first, ends on every finite graph with exactly the reachable bugs and their shortest distances |
| LinkGraph.HopsAreUnique | src/bzr_live/verify/expected.py:467-485 | that description determines the result |
| LinkGraph.CheckLinkBound | src/bzr_live/verify/runner.py:105-128 | accepts exactly when every bug's reach count and farthest distance are within the two ceilings |
| LinkGraph.FoldedLinksAreMutual | src/bzr_live/verify/expected.py:454-464 | in a folded scenario every link leads to a bug of the scenario, and every dependency link is answered by one back |
| LinkGraph.DistancesAreSymmetric | src/bzr_live/verify/expected.py:454-485 | the distances between the bugs of a folded scenario are the same both ways exactly when every duplicate link is answered by some link back |
| LinkGraph.DuplicateIsOneWay | src/bzr_live/verify/expected.py:462-463 | create a, create b, declare b a duplicate of a: replay accepts the scenario, a is one link from b, and b is unreachable from a |
| ChainOrder.Links | src/bzr_live/verify/checks.py:278-284 | whether each record picks up the value the one before left |
| ChainOrder.ByWhen | src/bzr_live/verify/checks.py:271-275 | the records of each timestamp, in the order they came |
| ChainOrder.Search.Walk | src/bzr_live/verify/checks.py:233-256 | every recorded solution is a continuation, solutions differ in their keys, and with budget left and at most one solution every continuation is accounted for |
| ChainOrder.Search.Visit | src/bzr_live/verify/checks.py:252-254 | the same for the continuations that start with one permutation |
| ChainOrder.PermutationsComplete | src/bzr_live/verify/checks.py:242 | the enumeration misses no rearrangement of a bucket |
| ChainOrder.DuplicateCovered | src/bzr_live/verify/checks.py:246-251 | skipping a permutation with keys already seen loses no answer |
| ChainOrder.OrderingsAreContinuations | src/bzr_live/verify/checks.py:228-256 | searching bucket by bucket searches exactly the orderings of all the records |
| ChainOrder.OrderChain | src/bzr_live/verify/checks.py:202-268 | an answer is a valid ordering and the only one up to interchangeable records; unlinked means none exists, ambiguous means two do, oversized happens only on inputs beyond the bounds |
| ChainOrder.OneTimestampSettles | src/bzr_live/verify/checks.py:228-231 | records of one timestamp always get settled unless there are more than seven |
| ChainOrder.Subsequence | src/bzr_live/verify/checks.py:346-350 | greedy matching finds the wanted items in order exactly when some increasing choice of positions does |
| ChainOrder.ActorsAreSettled | src/bzr_live/verify/checks.py:372-378 | the actor sequence compared with the declared one is the same for every valid ordering |
| StringOrder.SortedStrings | src/bzr_live/checkpoint.py:257-261 | the set's members, each once, in ascending order |
| ResourcePlan.PlanResources | src/bzr_live/scenario/loader.py:297-343 | duplicate identities are refused first, then the first declaration with a missing dependency or a component outside its flag scope; the plan is a permutation with dependencies first and precedes every other such plan by declaration index; the cycle error means no plan exists and never happens to parsed resources |
| ResourcePlan.CheckDependencies | src/bzr_live/scenario/loader.py:311-322 | reports the first declaration with a problem, and of that the missing dependency before the scope |
| ResourcePlan.GreedyIsLeast | src/bzr_live/scenario/loader.py:334-340 | always taking the earliest ready declaration gives the least plan |
| ResourcePlan.SomethingReady | src/bzr_live/scenario/loader.py:213-281 | as dependencies only go down the ranking of kinds, something is ready while anything is unplanned |
| ResourcePlan.Stuck | src/bzr_live/scenario/loader.py:341-342 | with nothing ready and something unplanned no plan exists |
| ResourcePlan.HeapLoop | src/bzr_live/scenario/loader.py:334-340 | the loop ends with a greedy, dependency-closed plan and nothing ready |
| ResourcePlan.Release | src/bzr_live/scenario/loader.py:337-340 | counting down the dependents of one planned resource releases exactly those that now wait for nothing |
| AttemptFiles.FilenameReadsBack | src/bzr_live/scenario/journal.py:781-783 | a file name parses to its event and attempt exactly when the number fits six digits, and to nothing otherwise |
| AttemptFiles.ParseWritesBack | src/bzr_live/scenario/journal.py:46 | a name that parses is the name of what it parses to |
| Records.OneIdentity | src/bzr_live/scenario/journal.py:441-456 | all attempts of one event share one identity |
| Records.StartKeepsValid | src/bzr_live/scenario/journal.py:870-903 | an admitted in-flight record extends a valid history to a valid one |
| Records.CompleteKeepsValid | src/bzr_live/scenario/journal.py:905-943 | an admitted completion is of the last attempt and keeps the history valid |
| JournalFiles.ReadRecords | src/bzr_live/scenario/journal.py:811-840 | succeeds exactly when the directory holds a gap-free valid history for the event, and returns it |
| JournalFiles.HistoryIsUnique | src/bzr_live/scenario/journal.py:811-840 | a directory holds at most one history for an event |
| JournalFiles.Store.Read | src/bzr_live/scenario/journal.py:842-848 | after any stores and kills, read returns the last attempt of the history held, never an error |
| JournalFiles.Store.WriteInFlight | src/bzr_live/scenario/journal.py:870-903 | killed after any file operation, every event's history is the old one or the new one; past attempt 999999 the journal is lost |
| JournalFiles.Store.ReplaceCompleted | src/bzr_live/scenario/journal.py:905-943 | killed before the rename every history is the old one, after it the new one |
| JournalFiles.LostWith | src/bzr_live/scenario/journal.py:811-818 | an attempt file whose number does not fit six digits loses the whole directory: no event's records can be read |
| Redaction.RemoveSecrets | src/bzr_live/scenario/journal.py:494-500 | the loop ends, with the fixpoint of the replacement passes |
| Redaction.RemovedIsClean | src/bzr_live/scenario/journal.py:494-500 | the fixpoint contains none of the secrets |
| Redaction.CleanIsKept | src/bzr_live/scenario/journal.py:494-500 | a string is left alone exactly when it contains none of them |
| Redaction.RedactOpaque | src/bzr_live/scenario/journal.py:503-520 | the recursive redaction of a JSON tree, or the duplicate-key refusal |
| Redaction.RedactedIsClean | src/bzr_live/scenario/journal.py:523-537 | whatever redaction returns contains no secret anywhere, keys included |
| Redaction.RedactTwice | src/bzr_live/scenario/journal.py:503-520 | redacting again changes nothing |
| Redaction.RefusesCollisions | src/bzr_live/scenario/journal.py:509-513 | redaction refuses exactly the trees in which two keys of one object become equal |
| RecordCodec.RefReadsBack | src/bzr_live/scenario/journal.py:605-613 | a valid reference reads back from its text |
| RecordCodec.PlannedReadsBack | src/bzr_live/scenario/journal.py:616-623 | a planned value reads back from its encoding exactly when no mapping in it has ref as its only key |
| RecordCodec.PostconditionHasNoRefMapping | src/bzr_live/scenario/journal.py:234-312 | a validated postcondition holds no such mapping |
| RecordCodec.PostconditionReadsBack | src/bzr_live/scenario/model.py:69-91 | so it always reads back |
| RecordCodec.RecordReadsBack | src/bzr_live/scenario/journal.py:578-677 | every valid in-flight or completed record reads back from its own encoding |
| Archives.SplitJoin | src/bzr_live/checkpoint.py:728-737 | a path written with slashes splits into the same components |
| Archives.Insert | src/bzr_live/checkpoint.py:785-800 | placing one member in the trie succeeds exactly when it is compatible with every earlier member, and the trie then holds exactly the members so far |
| Archives.ValidateTopology | src/bzr_live/checkpoint.py:751-800 | accepts exactly the member lists that are legal one by one, repeat no path and have nothing below a regular file, whatever the order |
| Archives.ReadThrough | src/bzr_live/checkpoint.py:810-853 | reading in chunks succeeds exactly when the archive holds the promised bytes, and returns them |
| Archives.ValidateArchive | src/bzr_live/checkpoint.py:810-853 | topology and completeness together decide acceptance |
| Extraction.Destination.EnsureDirectory | src/bzr_live/checkpoint.py:865-892 | succeeds exactly when no regular file is on the way, and then all directories on the way stand, private |
| Extraction.Destination.CreateFile | src/bzr_live/checkpoint.py:937-988 | an exclusive create: succeeds exactly when nothing stands there and the bytes are all there |
| Extraction.ExtractArchive | src/bzr_live/checkpoint.py:895-1004 | an archive extracts exactly when it is acceptable, and the tree then holds exactly its members and the directories above them |
| Extraction.ExtractionIsUnique | src/bzr_live/checkpoint.py:895-988 | the members determine the tree |
| Extraction.OrderIsIrrelevant | src/bzr_live/checkpoint.py:895-988 | so does any rearrangement of them |
| RunnerTree.Walk | src/bzr_live/checkpoint.py:264-302 | the worklist walk lists every path once, each after its parent, in component order, and refuses exactly the trees with a directory that denies its owner |
| RunnerTree.OrderIsUnique | src/bzr_live/checkpoint.py:257-302 | only one list of given paths is in that order |
| RunnerTree.CreateArchive | src/bzr_live/checkpoint.py:628-725 | succeeds exactly when every directory grants its owner all and its owner can read every regular file; the archive then has one member for every path below the root, in walk order |
| RunnerTree.ArchiveIsUnique | src/bzr_live/checkpoint.py:667-725 | the tree alone determines the archive's members and their order |
| RunnerTree.AcceptableIffPortable | src/bzr_live/checkpoint.py:728-800 | the archive of a valid tree is accepted exactly when no name holds a backslash |
| RunnerTree.RoundTrip | src/bzr_live/checkpoint.py:667-1004 | archive, validate, extract: succeeds exactly for granted trees whose files their owner can read and whose names hold no backslash, and gives back the same paths and bytes with private modes |
| RunnerTree.MaskedSettles | src/bzr_live/checkpoint.py:667-1004 | such a tree, given back, makes the round trip again and comes back as it is |
| RunnerTree.WalkedNotArchived | src/bzr_live/checkpoint.py:289-297 | a file its owner may only write passes the walk and stops the archive |
| RunnerTree.RemoveTree | src/bzr_live/checkpoint.py:2350-2362 | the walk reversed removes every entry before its directory and leaves nothing |
| CheckpointSave.Save.RemoveStaging | src/bzr_live/checkpoint.py:599-608 | the deletions in their order, a fault possible at each: whatever it leaves can be removed the next time, except the bare directory between the last two |
| CheckpointSave.Save.CleanupStaging | src/bzr_live/checkpoint.py:535-608 | removes nothing but staging directories with only known names and a matching marker, and is repeatable when cut short before the marker's deletion |
| CheckpointSave.Save.CreateStaging | src/bzr_live/checkpoint.py:432-497 | step by step with its handler: a single fault leaves the directory behind exactly when it falls after mkdir and before the marker file exists, and then empty |
| CheckpointSave.Save.TakeBack | src/bzr_live/checkpoint.py:2003-2094 | a staging directory taken note of is removed unless a step of its own removal fails |
| CheckpointSave.Save.Publish | src/bzr_live/checkpoint.py:2150-2161 | one rename from absent to the staged bundle; another process's path is left alone |
| CheckpointSave.Save.Fail | src/bzr_live/checkpoint.py:2164-2201 | an unpublished staging directory that was taken note of is left behind exactly when a step of its removal fails, one that was not is left alone, the final path is untouched, and the fixture is restarted once |
| CheckpointSave.Save.SaveCheckpoint | src/bzr_live/checkpoint.py:2204-2317 | with a fault possible at every step, the final path goes once from absent to a whole bundle or stays as it was, and published says exactly whether this run did it; an unpublished save leaves staging behind exactly when a step between mkdir and the marker file, or a step of a cleanup, failed, and with one fault exactly when it fell between mkdir and the marker file |
| CheckpointSave.CleanUpAfter | src/bzr_live/checkpoint.py:535-608 | a run after a kill at any moment of a save clears up what the kill left exactly unless it struck between mkdir and the written marker, or between the marker's removal and the rename or the directory's |
| CheckpointSave.StrandsStaging | src/bzr_live/checkpoint.py:439-444 | one failed chmod: the save fails, the empty directory stays, and no cleanup removes it |
| CheckpointRestore.Restore.ReplaceVolumes | src/bzr_live/checkpoint.py:2374-2390 | destructive from the moment the first deletion starts; before that the volumes are unchanged |
| CheckpointRestore.Restore.ReplaceRunner | src/bzr_live/checkpoint.py:2350-2371 | removes the walked entries last to first; a fault leaves a tree that the next run's walk accepts |
| CheckpointRestore.PartIsValid | src/bzr_live/checkpoint.py:895-988 | so does a fault inside the extraction of one member |
| CheckpointRestore.Restore.ExtractRunner | src/bzr_live/checkpoint.py:895-988 | extraction into the emptied target meets no obstacle and ends with exactly the archive's tree |
| CheckpointRestore.Restore.RestoreBundle | src/bzr_live/checkpoint.py:2469-2570 | an exit before the first deletion leaves volumes and runner unchanged and restarts the stack exactly when the shutdown had begun; an exit after it never restarts; success means exactly the bundle's contents; without faults it succeeds exactly when the archive and the host's runner tree are accepted |
| CheckpointRestore.RestoreAfterFaults | src/bzr_live/checkpoint.py:2469-2570 | after whatever any number of earlier restores met, a fault-free one ends with exactly the bundle's contents |
| Fingerprint.StreamReadsBack | src/bzr_live/checkpoint.py:1078-1085 | the length-prefixed stream decodes to the fields it was made from |
| Fingerprint.SortedIsUnique | src/bzr_live/checkpoint.py:1078-1085 | sorting leaves nothing but the multiset of fields |
| Fingerprint.StreamDeterminesFields | src/bzr_live/checkpoint.py:1045-1085 | two field lists feed the hash the same bytes exactly when they hold the same fields, each as often |
| Fingerprint.FeedHash | src/bzr_live/checkpoint.py:1078-1085 | the loop feeds exactly that stream |

## Left out

- ReplayTheorems.EndToEnd: agreement on `cc` and on self-edges is claimed up to `Recovery.Missing` and `Recovery.Loose`, and on an attachment's summary until a description is declared; `Courses.CcExact`, `Courses.SelfEdgeExact` and `Limits.SummaryExactUnlessRenamed` prove that more would be false.
- ReplayTheorems.EndToEnd: a scalar the fold makes no claim about may have any value on the server. The modelled server keeps the resolution when a status is declared alone, the fold forgets it, and agreement asks only for the expected scalars.
- ReplayTheorems.EndToEnd: covers creator and commenter logins, scalar fields, custom fields, `cc`, `keywords`, `groups`, both edge sets, the ordered thread and the attachments; flag entries, time tracking and the status and resolution a duplicate drives follow server rules outside the repository.
- ReplayEngines.JournalStore.WriteInFlight: works on whole histories; the files, the temporary and the kills between file operations are `JournalFiles.Store`, and `JournalSteps.WriteRecord` ties the two together.
- JournalSteps.WriteRecord: the temporary's name is a fresh one; the refusal of a name already taken is in `JournalFiles.Store` only.
- ChainOrder.OrderChain: says when oversized can happen, not the exact number of permutations a given input enumerates.
- CheckpointSave.Save.CreateStaging: a marker whose writing failed counts as partial wherever in the writing the fault fell.
- CheckpointSave.CleanUpAfter: a kill strikes between two modelled steps, or inside the writing of a file, which then counts as partial.
- Scenarios.ValidateEvents: flag-type target and scope, bug scope (product, component, version, milestone, group), and references to resources and assets are not modelled; actors are.
- Scenarios.ValidateEvents: an update that resets the assignee (null assignee) is an update that cannot be read back, and the assignee itself is not compared.
- CheckpointRestore.Restore.RestoreBundle: the best-effort shutdown after a signal during startup is a step whose failure changes nothing further.
- Redaction.RedactOpaque: which keys are sensitive (`_sensitive_key`) is a parameter; the proofs hold for any such test.
- RecordCodec.RecordReadsBack: floating-point numbers and the JSON text itself are not modelled, nor are the checks of `_validate_common` that reading back does not depend on.
- ResourcePlan.HeapLoop: the heap is the set of ready declarations, and a pop takes the least.
- StringOrder.SortedStrings: stands for Python's `sorted`, whose algorithm is not modelled.
- Change history (`ExpectedChange`), attribution of history records, and the findings a verification prints.
- The field-by-field validators of the loader.
- A late commit, arriving after the reconciling read, and concurrent writers.
- File synchronisation and power loss, file descriptors, locks, ownership, modes other than the owner's bits, access-control lists, mount points, and symbolic and hard links.
- Docker, Compose, HTTP, subprocesses and signal delivery: each external command is a step that succeeds, fails or is interrupted.
- SHA-256, base64 and the comparison of manifests.
- Provisioning of products, components and users.
