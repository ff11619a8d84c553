# Verification of the scheduling, session, storage and prompt cores

This project models the stateful protocols and the hard transformations of the repository in Dafny and proves what
they keep. Each file is one module:

| file | what it models |
|---|---|
| `SessionActor.dfy` | the actor that owns one SDK client: command queue, message stream, parked and deferred commands, interrupt, disconnect and every way out |
| `TranscriptStore.dfy` | the transcript store: optimistic appends with retry, de-duplication by uuid, the summary per session, deletes |
| `SchemaInliner.dfy` | `resolve_schema`: inlining `$ref` through named definitions (JSON Schema Core 2020-12, sections 8.2.3.1 and 8.2.4) |
| `Migration.dfy` | the project migration v0 to v1 as atomic disk operations that may crash between any two |
| `RateLimiter.dfy` | the sliding-window rate limiter, threads and coroutines on one log |
| `GenerationWorker.dfy` | the worker: per-provider lanes, the claim loop, draining, live reload of limits, lease recovery |
| `Reconnect.dfy` | the view after a reconnect: stored history merged with the replayed buffer |
| `VersionManager.dfy` | the version history of generated files: records, file copies, restore |
| `ShotParser.dfy` | prompts of reference videos: lines, headers, shots, mentions, references, rendering |
| `Storyboard.dfy` | storyboard groups, the dependency plan and the batch that enqueues it |
| `PythonText.dfy`, `FirstOccurrence.dfy`, `Sets.dfy`, `Wrappers.dfy` | shared: stripping and decimal numbers, lists in order of first occurrence, set sizes, `Option` and `Result` |

Code that changes objects in place is a class whose methods change its fields; loops are methods with invariants. Such a
method is proved against a function on values (`Step`, `Commit`, `Tried`, `Migrated`, `Parsed`, `Plans`, ...), and
what the source promises is proved about that function, over every input, run or interleaving. Concurrency is a step
system: a step is the code between two suspension points, and the environment picks the next one. Clocks, file contents,
the queue's answers and the ends of tasks are inputs. Every loop and recursion is proved to end; the inliner does on every
schema, by the definitions not yet on the path and then the size of the node. `dafny verify dfyconfig.toml` checks everything.

Properties one might expect that do not hold, each with the exact condition under which it does:

* A command given to the actor is not always completed. Exactly the commands named by `Dropped` are left: the one
  `cmd_task` had taken when the stream failed, or the disconnect whose own interrupt raised
  (`SessionActors.StepKeepsInvariant`; a run that drops one is `SessionActors.FailureDropsTheTakenCommand`). Nor is
  global order kept (`SessionActors.OrderOfService`, `SessionActors.LaterCommandOvertakes`).
* The summary of a session is not always the fold over the transcript, even without duplicate uuids: a delete between an
  append's read and its insert turns the order around (`TranscriptStore.InFlightDeleteBreaksTheFold`); the condition for
  one commit is `TranscriptStore.CommitKeepsTheFold`.
* A summary does not always have entries: a delete with a null or an empty subpath leaves it behind
  (`TranscriptStore.DeleteKeepsSummariesWithEntries`, `TranscriptStore.SummaryLeftBehind`).
* A run that heals a half-migrated v1 project, unlike a v0 run, may stall after a crash (`Migration.HealingCrash`,
  `Migration.HealingCanStall`). Healing runs only when `migrate_v0_to_v1` is called directly: the runner skips every
  project that is already at v1 (lib/project_migrations/runner.py:107-109). A project without clues may be changed by a second run
  (`Migration.RerunChangesNothing`).
* References in the siblings of a `$ref` survive inlining: `SchemaInliner.ReferencesLeftExactly` says for which schemas,
  `SchemaInliner.AReferenceCanBeLeft` shows some.
* Shots that were parsed do not always come back from the prompt an editor shows for them
  (`ShotParser.ReprintingParsedShots`, `ShotParser.ReprintingCanChangeAShot`).
* A spec of a batch does not always wait for its own task: a later spec with the same resource that got another task takes
  over (`Storyboard.EveryTaskIsAwaited`). The queue gives another task when type or script differ or the first task has
  already ended, and the same one otherwise (`Storyboard.RepeatedTasksAreAwaited`, `Storyboard.SecondSpecTakesOver`).

## Model

| member | source | states |
|---|---|---|
| `SessionActors.StepKeepsInvariant` | server/agent_runtime/session_actor.py:79-200 | every step keeps each command in at most one place with consistent flags, and the commands lost grow by exactly those `Dropped` names: the taken command on a stream failure, the disconnect whose interrupt raised |
| `SessionActors.RunKeepsInvariant` | server/agent_runtime/session_actor.py:79-200 | the same over every run: what is lost at the end is what was lost before plus what the run dropped, and no command is forgotten |
| `SessionActors.EveryCommandIsAccountedFor` | server/agent_runtime/session_actor.py:79-200 | on every interleaving each command given to the actor is completed, or dropped, or in exactly one place (queue, taken, active, parked, being served), never two of these; at most one is dropped and only on an exit with an exception |
| `SessionActors.EndedActorLeavesNobodyWaiting` | server/agent_runtime/session_actor.py:79-89 | once the actor has ended, a command (also one enqueued later) has `sent` and `done` set if and only if it was not dropped; an end without exception drops nothing and is a completed disconnect |
| `SessionActors.QuietEndIsADisconnect` | server/agent_runtime/session_actor.py:97-99 | an actor that leaves without an exception has answered a disconnect, on every run |
| `SessionActors.DoneStaysPut` | server/agent_runtime/session_actor.py:31-40 | no step completes a done command again or touches its recorded error |
| `SessionActors.CompletionIsFinal` | server/agent_runtime/session_actor.py:31-40 | the same over every run |
| `SessionActors.EveryCommandIsToldTheTruth` | server/agent_runtime/session_actor.py:79-200 | over every run, by a record of the events with what was held and queued at each: a command has been completed with an error, or with none, if and only if some moment of the record says so. The query whose send or stream raised carries that exception, also a message handler's; an interrupt carries an ordinary exception of its own call and no other; a third query carries the busy error; what is parked when the stream fails carries the sentinel; what is queued at the end or enqueued later carries the exception that ended the actor, else the sentinel; every other completed command carries none |
| `SessionActors.StepAnswers` | server/agent_runtime/session_actor.py:92-185 | one step completes exactly the commands, with exactly the errors, that its moment of the record names |
| `SessionActors.StepTells` | server/agent_runtime/session_actor.py:76-89 | the fatal error of the actor is the exception that left its loops, and the message it looks at is the last that arrived |
| `SessionActors.QueriesNeverOverlap` | server/agent_runtime/session_actor.py:101-109 | `client.query` is issued only from the idle loop or at the end of a stream, when every query sent earlier is done |
| `SessionActors.ParkedQueryRunsNext` | server/agent_runtime/session_actor.py:130-139 | when the stream ends the active query is done and the parked query is the very next one sent, whatever else was taken |
| `SessionActors.OrderOfService` | server/agent_runtime/session_actor.py:126-177 | waiting commands leave in order on every step except one: a taken command goes behind the whole queue when the stream ends with a query parked |
| `SessionActors.FailureDropsTheTakenCommand` | server/agent_runtime/session_actor.py:126-185 | a run from the start that drops a command: taken by `cmd_task` when the stream raises, it is still untouched when the actor has ended |
| `SessionActors.LaterCommandOvertakes` | server/agent_runtime/session_actor.py:132-139 | a run from the start in which two queued commands change places, so order is not global |
| `SessionActors.PlacedMeansOneCopy` | server/agent_runtime/session_actor.py:114-122 | counted variable by variable, a command held anywhere is held once |
| `SessionActors.MarkAllMarks` | server/agent_runtime/session_actor.py:193-200 | draining completes exactly the queued commands that are not done, each with the given error, and no other |
| `SessionActors.FailStreamStep` | server/agent_runtime/session_actor.py:178-185 | leaving the stream with an exception loses exactly the command taken or being served and completes the active and the parked query |
| `SessionActors.EndStreamStep` | server/agent_runtime/session_actor.py:130-143 | the end of the stream loses nothing: active query done, parked query handed off, taken command put back or handed off |
| `SessionActors.LookStep` | server/agent_runtime/session_actor.py:145-177 | looking at a taken command loses nothing, whether it is served, parked or refused |
| `SessionActors.DispatchStep` | server/agent_runtime/session_actor.py:97-112 | the command loop loses nothing when it handles a command |
| `SessionActors.SessionCommand.Complete` | server/agent_runtime/session_actor.py:31-40 | sets both flags, and the error only when one is given |
| `SessionActors.SessionActor.Enqueue` | server/agent_runtime/session_actor.py:187-191 | the object code equals the enqueue step: queued while the actor lives, completed with the fatal error or the closed sentinel after its end |
| `SessionActors.SessionActor.DrainPendingCommands` | server/agent_runtime/session_actor.py:193-200 | empties the queue and completes exactly what `MarkAll` says |
| `SessionActors.SessionActor.ConnectReturns` | server/agent_runtime/session_actor.py:79-89 | the object code equals the connect steps, draining the queue when connecting fails |
| `SessionActors.SessionActor.Handle` | server/agent_runtime/session_actor.py:97-112 | one command handled as the dispatch function says, frame included |
| `SessionActors.SessionActor.GetCommand` | server/agent_runtime/session_actor.py:93-112 | takes the head of the queue and handles it |
| `SessionActors.SessionActor.QueryReturns` | server/agent_runtime/session_actor.py:101-109 | sent when `client.query` returned, completed with its exception when it raised, and the actor leaves with it; on the whole state, as a step whose answers `SessionActors.StepAnswers` fixes |
| `SessionActors.SessionActor.MessageArrives` | server/agent_runtime/session_actor.py:119-125 | the pending receive becomes the given result and nothing else changes |
| `SessionActors.SessionActor.CommandArrives` | server/agent_runtime/session_actor.py:120-125 | the head of the queue becomes the taken command and nothing else changes |
| `SessionActors.SessionActor.WaitReturns` | server/agent_runtime/session_actor.py:123-177 | the loop body equals the wake step for every combination of finished tasks and kinds of command |
| `SessionActors.SessionActor.LookAtTaken` | server/agent_runtime/session_actor.py:145-177 | interrupt and disconnect start their interrupt, a query is parked or refused as busy, and nothing else changes |
| `SessionActors.SessionActor.StreamEnds` | server/agent_runtime/session_actor.py:130-143 | equals `EndStream` on the whole state |
| `SessionActors.SessionActor.Fail` | server/agent_runtime/session_actor.py:178-185 | the parked query is released and the active one completed with the exception, which becomes the fatal error; on the whole state, as `SessionActors.FailAnswers` fixes its answers |
| `SessionActors.FailAnswers` | server/agent_runtime/session_actor.py:107-109 | when the stream raises, the active query is told the exception and the parked one the sentinel, and nobody else anything |
| `SessionActors.SessionActor.Release` | server/agent_runtime/session_actor.py:184-185 | a parked query not yet done is completed with its own error or the closed sentinel |
| `SessionActors.SessionActor.InterruptSucceeds` | server/agent_runtime/session_actor.py:147-168 | equals the step for a returned interrupt, both for an interrupt and for a disconnect |
| `SessionActors.SessionActor.LetGoAndDisconnect` | server/agent_runtime/session_actor.py:161-168 | active query done, parked query released, then the disconnect handled |
| `SessionActors.SessionActor.AwaitRaises` | server/agent_runtime/session_actor.py:147-185 | an ordinary exception is also recorded on the interrupt being served, a control-flow one only completes it; then the failure path |
| `SessionActors.SessionActor.ContextExits` | server/agent_runtime/session_actor.py:84-89 | what is queued when the client closes is completed with the fatal error or the sentinel |
| `TranscriptStore.EveryStateIsConsistent` | lib/agent_session_store/store.py:101-144 | in every state reachable by any appends (with any sequence number read earlier) and deletes, uuids are unique per key and a session with main entries has a summary |
| `TranscriptStore.InsertKeepsRows` | lib/agent_session_store/store.py:211-235 | a successful insert keeps every old row, and each new row holds the entry its sequence number says, so stored rows keep the order of their append |
| `TranscriptStore.InsertKeepsUuidsUnique` | lib/agent_session_store/store.py:211-235 | inserting keeps non-null uuids unique, also within the batch |
| `TranscriptStore.InsertBehindAppends` | lib/agent_session_store/store.py:101-144 | an attempt whose number is above every row succeeds and appends exactly the entries with new uuids, in order, to what is loaded |
| `TranscriptStore.UndisturbedAppendExtends` | lib/agent_session_store/store.py:110-144 | when no other commit comes between read and insert, the attempt succeeds and the old `load` is a prefix of the new one |
| `TranscriptStore.UndisturbedAppend` | lib/agent_session_store/store.py:59-144 | an append that nobody comes between touches one transcript, where the entries new to it follow the old ones in order, and the summary of a main transcript only |
| `TranscriptStore.FreshIsNew` | lib/agent_session_store/store.py:35-38 | what an insert stores are the entries without a uuid and, of those with one, the first with each uuid not stored yet |
| `TranscriptStore.SuccessStoresAll` | lib/agent_session_store/store.py:59-99 | an append that reports success has stored each entry, or one with its uuid is stored, whatever others did |
| `TranscriptStore.ReappendChangesNothing` | lib/agent_session_store/store.py:211-235 | appending a batch again at once whose entries all have uuids changes no row, wherever the second attempt starts |
| `TranscriptStore.RowsSurvive` | lib/agent_session_store/store.py:101-144 | over every run of appends and deletes, stored rows stay what and where they are until their key is deleted |
| `TranscriptStore.AppendedRowsKeepTheirOrder` | lib/agent_session_store/store.py:101-144 | over every such run the rows of a committed append keep the order of its batch |
| `TranscriptStore.ReappendLaterChangesNothing` | lib/agent_session_store/store.py:211-235 | appending a committed batch with uuids again after any such run changes no row of the key |
| `TranscriptStore.AbortMeansAnotherCommit` | lib/agent_session_store/store.py:65-94 | an attempt aborts only if another append to the same key committed a row between its read and its insert, and then leaves the database as it is |
| `TranscriptStore.GivesUpOnlyUnderContention` | lib/agent_session_store/store.py:65-99 | whatever others do between read and insert and while an attempt sleeps, `append` gives up only after sixteen commits of rows by others, one between the read and the insert of each attempt, and leaves nothing of its own |
| `TranscriptStore.SummaryMeansEntries` | lib/agent_session_store/store.py:284-306 | on runs whose deletes give no subpath or a non-empty one, every summary has main entries |
| `TranscriptStore.ListingsAgree` | lib/agent_session_store/store.py:256-280 | on those runs `list_session_summaries` names exactly the sessions that `list_sessions` finds in the entries |
| `TranscriptStore.DeleteKeepsSummariesWithEntries` | lib/agent_session_store/store.py:284-306 | a delete leaves every summary with main entries if and only if it gives no subpath, or a non-empty one, or the session has no summary |
| `TranscriptStore.SummaryLeftBehind` | lib/agent_session_store/store.py:291-304 | a delete with a null or an empty subpath leaves a listed summary of a session that `list_sessions` no longer finds; the empty one also deletes every part |
| `TranscriptStore.SummaryIsTheFold` | lib/agent_session_store/store.py:139-144 | over every interleaving of reads, commits and deletes without duplicate uuids and without a delete of a session with an append in flight, each summary stays the left fold over the loaded main transcript |
| `TranscriptStore.EverySummaryIsTheFold` | lib/agent_session_store/store.py:139-144 | the same for every such run from the empty store |
| `TranscriptStore.CommitKeepsTheFold` | lib/agent_session_store/store.py:154-209 | for any batch: one commit keeps summary and transcript together if and only if nothing in the batch is a duplicate and the batch may stand on either side of the rows stored at or above the number it read |
| `TranscriptStore.CommitWithUuidKeepsTheFold` | lib/agent_session_store/store.py:154-209 | for a batch whose first entry has a uuid the second condition is that the number read is above every stored row |
| `TranscriptStore.InFlightDeleteBreaksTheFold` | lib/agent_session_store/store.py:110-144 | a run from the empty store, all entries with their own uuids, after which the summary folds `a, b` and the transcript loads `b, a` |
| `TranscriptStore.DbSessionStore.ReadSeqStart` | lib/agent_session_store/store.py:109-118 | one more than the highest sequence number, 0 for an empty key |
| `TranscriptStore.DbSessionStore.InsertAndCommit` | lib/agent_session_store/store.py:101-144 | insert, summary and commit in one transaction, or no change at all |
| `TranscriptStore.DbSessionStore.Append` | lib/agent_session_store/store.py:59-99 | the retry loop equals `Attempts` whatever others do between read and insert and during each sleep. Success means every entry of the batch, or one with its uuid, is stored under the key, absent, null and empty subpath meaning the main transcript. An append that nobody comes between succeeds, adds the new entries behind the old ones, leaves the rows of every other key alone and folds a summary only for the main transcript. Failing proves sixteen commits by others |
| `TranscriptStore.DbSessionStore.LoadEntries` | lib/agent_session_store/store.py:237-252 | the entries of the project, session and subpath by sequence number, none if there are none; absent, null and empty subpath mean the main transcript |
| `TranscriptStore.DbSessionStore.DeleteEntries` | lib/agent_session_store/store.py:284-306 | exactly the rows of the session go that have the subpath given, all of them for an absent or empty one and the main ones for a null one; the summary goes only if no subpath is given |
| `SchemaInliner.FailsExactlyOnCycles` | lib/text_backends/base.py:100-112 | when every reference names a definition, one that stands for a dict if the reference has siblings, inlining fails if and only if some chain of followed references comes back to a definition already on it |
| `SchemaInliner.CycleWitness` | lib/text_backends/base.py:103-106 | the name in the error is on a chain of followed references twice |
| `SchemaInliner.OnlyCyclesFail` | lib/text_backends/base.py:100-112 | for the same schemas the only failure is the cycle error |
| `SchemaInliner.OkMeansNoRepetition` | lib/text_backends/base.py:104-106 | after success no chain of followed references meets a definition twice |
| `SchemaInliner.InlineIsTheUnfolding` | lib/text_backends/base.py:100-112 | inlining returns `t` if and only if `t` is the full unfolding, which is defined without any visited set |
| `SchemaInliner.InlineUnfolds` | lib/text_backends/base.py:100-112 | whatever it returns with some visited names is the unfolding to the depth of the names left |
| `SchemaInliner.UnfoldingIsFound` | lib/text_backends/base.py:104-106 | the cycle check never fires on something that has a finite unfolding |
| `SchemaInliner.UnfoldIsStable` | lib/text_backends/base.py:100-112 | an unfolding that reaches the bottom does not change with more depth |
| `SchemaInliner.InlineIgnoresVisited` | lib/text_backends/base.py:100 | two successful calls agree whatever names each had on its path |
| `SchemaInliner.NoReferenceLeft` | lib/text_backends/base.py:100-112 | no `$ref` is left where siblings of followed references hold none |
| `SchemaInliner.CleanDecides` | lib/text_backends/base.py:100-112 | after success no `$ref` is left if and only if a walk over the schema finds none in siblings that nothing further out overrides |
| `SchemaInliner.ReferencesLeftExactly` | lib/text_backends/base.py:96-116 | the same for the result of `resolve_schema`, where `$defs` does not count; the definitions themselves are gone. For every value of `$defs` other than null, false, 0 and the empty ones |
| `SchemaInliner.AReferenceCanBeLeft` | lib/text_backends/base.py:107-116 | schemas that resolve and keep a `$ref`, in a sibling of the reference at the top |
| `SchemaInliner.SiblingReferencesSurvive` | lib/text_backends/base.py:107-108 | an object whose definition inlines to a dict free of `$ref` inlines to one free of `$ref` if and only if its siblings hold none |
| `SchemaInliner.LookupOfMerge` | lib/text_backends/base.py:107-108 | in the merge a sibling wins over the definition, key by key |
| `SchemaInliner.InliningKeepsTheReading` | lib/text_backends/base.py:100-112 | where the walk finds no reference left, at every path that no sibling further out overrides the result shows what a reader of the original sees who replaces each `$ref` on the way by its definition overridden by its siblings |
| `SchemaInliner.ReferenceKeepsTheReading` | lib/text_backends/base.py:102-108 | the same for an object with a `$ref` |
| `SchemaInliner.ResolvedSchemaMeansTheSame` | lib/text_backends/base.py:96-116 | `resolve_schema` fails exactly on a cycle; otherwise, if the walk finds no reference left, there is none and everything outside `$defs` reads as before; for every value of `$defs` other than null, false, 0 and the empty ones |
| `SchemaInliner.ResolvingTwiceChangesNothing` | lib/text_backends/base.py:96-116 | a resolved schema is final: resolving it again returns it as it is, so a reference that was left stays |
| `SchemaInliner.RefName` | lib/text_backends/base.py:103 | the part of the pointer after the last slash |
| `SchemaInliner.RefNameOfPointer` | lib/text_backends/base.py:103 | a pointer to a definition without slash in its name is read as that name |
| `Migration.CrashesDoNotMatter` | lib/project_migrations/v0_to_v1_clues_to_scenes_props.py:136-177 | crash a v0 run between any two atomic operations, any number of times: what a run makes of the disk is what it would have made of the first one, and the write of `project.json` ends exactly there |
| `Migration.AtomicStepKeepsGoal` | lib/project_migrations/v0_to_v1_clues_to_scenes_props.py:33-57 | each atomic operation leaves the goal of the run unchanged, or is the commit that reaches it |
| `Migration.RenameKeepsGoal` | lib/project_migrations/v0_to_v1_clues_to_scenes_props.py:42-48 | moving one image does not change where all files end up |
| `Migration.RerunChangesNothing` | lib/project_migrations/v0_to_v1_clues_to_scenes_props.py:149-157 | a further run changes nothing except in exactly one case: the project was v0 without clues and a file in `clues/` is named after one of its scenes or props; so with clues it never changes anything |
| `Migration.HealingCrash` | lib/project_migrations/v0_to_v1_clues_to_scenes_props.py:148-155 | a crashed healing run is finished by the next one if and only if the crash left a file in `clues/`, or `clues/` is gone and no script is below version 1 |
| `Migration.HealingCanStall` | lib/project_migrations/v0_to_v1_clues_to_scenes_props.py:148-155 | a v1 project whose script is never rewritten after such a crash |
| `Migration.HealingStepsKeepTheGoal` | lib/project_migrations/v0_to_v1_clues_to_scenes_props.py:148-155 | every operation of a healing run keeps its goal and the project file |
| `Migration.SheetsFollowTheirImages` | lib/project_migrations/v0_to_v1_clues_to_scenes_props.py:12-48 | scenes and props partition the clue names, and a clue whose sheet was its own image has the same bytes at the rewritten path |
| `Migration.ItemsAreSplitWhole` | lib/project_migrations/v0_to_v1_clues_to_scenes_props.py:96-116 | the clue names of a script item are split without loss, duplicate or reordering, and a registered name lands in the list of the table that now holds it |
| `Migration.ScriptsAreSplitWhole` | lib/project_migrations/v0_to_v1_clues_to_scenes_props.py:75-119 | after a run every readable script below version 1 is at version 1 with its other fields, and both its lists have their items at their places: one without legacy fields as it was, any other with the names of its legacy fields once each in order of first occurrence, the scenes' names in `scenes` and all others in `props`; every other script is as it was |
| `Migration.ProjectIsMigratedWhole` | lib/project_migrations/v0_to_v1_clues_to_scenes_props.py:158-177 | the new `project.json` has every clue as a scene or a prop with its description and its sheet under the new directory, keeps the scenes and props of a project without clues, and keeps all other fields |
| `Migration.ReplacedAtFirst` | lib/project_migrations/v0_to_v1_clues_to_scenes_props.py:24-29 | in a sheet path the first `clues/` is replaced, and a path without one stays |
| `Migration.LocationSpelling` | lib/project_migrations/v0_to_v1_clues_to_scenes_props.py:16-22 | a clue is a scene exactly if its type is `location` in any mixture of cases |
| `FirstOccurrence.DedupKeepsFirsts` | lib/project_migrations/v0_to_v1_clues_to_scenes_props.py:99-108 | merging keeps every name once, in order of first occurrence |
| `FirstOccurrence.SelectKeepsOrder` | lib/project_migrations/v0_to_v1_clues_to_scenes_props.py:111-114 | splitting keeps that order and puts each name on one side |
| `Migration.FileNameIsInjective` | lib/project_migrations/v0_to_v1_clues_to_scenes_props.py:45-47 | two clues never share an image file name |
| `Migration.ReconstructedBelongs` | lib/project_migrations/v0_to_v1_clues_to_scenes_props.py:122-133 | the table rebuilt from a v1 project sorts every file as the lost clue table did |
| `Migration.SplitClues` | lib/project_migrations/v0_to_v1_clues_to_scenes_props.py:12-30 | the loop builds exactly the two tables of the specification |
| `Migration.SplitItem` | lib/project_migrations/v0_to_v1_clues_to_scenes_props.py:98-116 | the loops over three legacy fields and the merged names equal the item specification |
| `Migration.Migrator.RelocateClueFiles` | lib/project_migrations/v0_to_v1_clues_to_scenes_props.py:33-57 | the files end where `Relocated` says, through atomic operations only, `project.json` untouched |
| `Migration.Migrator.MoveImages` | lib/project_migrations/v0_to_v1_clues_to_scenes_props.py:42-48 | the images of one clue are gone from `clues/` and the goal is unchanged |
| `Migration.Migrator.MigrateScripts` | lib/project_migrations/v0_to_v1_clues_to_scenes_props.py:75-119 | every script below version 1 is rewritten, each by one write, to what `Migration.ScriptsAreSplitWhole` says; the others are not written |
| `Migration.Migrator.Migrate` | lib/project_migrations/v0_to_v1_clues_to_scenes_props.py:136-177 | the whole run ends in `Migrated` of the first disk, through a history of atomic operations that commits last |
| `RateLimiters.EveryGrantIsWithinLimits` | lib/gemini_shared.py:80-173 | on every run of sync and async attempts with a clock that does not go back, under any limits along the way, a grant under limit L has fewer than L earlier grants in the 60 s before it and is `request_gap` or more than 60 s after the previous one |
| `RateLimiters.ConstantLimitSpacing` | lib/gemini_shared.py:116-125 | with limit L at grant k+L, that grant comes more than 60 s after grant k |
| `RateLimiters.GrantedExactly` | lib/gemini_shared.py:97-166 | an attempt of either kind is granted if and only if fewer grants than the limit lie in the 60 s before it and the gap to the last of them has passed; the grant is timed by the last clock reading |
| `RateLimiters.SleepsLongEnough` | lib/gemini_shared.py:108-173 | an attempt not granted sleeps until the gap to the last grant is over or until 0.1 s after the oldest grant has left the full window, an async one until both |
| `RateLimiters.AttemptShape` | lib/gemini_shared.py:97-125 | either loop evicts, then at most appends one time between its readings, only below the limit and past the gap |
| `RateLimiters.AttemptKeepsTrack` | lib/gemini_shared.py:101-102 | the log stays the tail of all grants, everything fallen off it older than the window |
| `RateLimiters.AttemptKeepsLimits` | lib/gemini_shared.py:104-119 | one attempt of either kind keeps every grant within its limit and gap |
| `RateLimiters.NewGrantFits` | lib/gemini_shared.py:116-118 | fewer than L log entries means fewer than L grants in the window |
| `RateLimiters.AcquireAlone` | lib/gemini_shared.py:138-173 | with exact sleeps and no competitor it is granted within max(60.1, `request_gap`) seconds however long the log, after at most max(1, n-L+1) sleeps |
| `RateLimiters.OneMoreSleep` | lib/gemini_shared.py:147-173 | after each sleep the gap has passed and a full log loses its oldest entry |
| `RateLimiters.Evict` | lib/gemini_shared.py:101-102 | what stays is the longest tail starting within the window |
| `RateLimiters.RateLimiter.PopOld` | lib/gemini_shared.py:101-102 | the eviction loop equals `Evict` |
| `RateLimiters.RateLimiter.Turn` | lib/gemini_shared.py:97-125 | one turn of the blocking loop equals `Try` |
| `RateLimiters.RateLimiter.TurnAsync` | lib/gemini_shared.py:138-173 | one turn of the async loop equals `TryAsync` |
| `RateLimiters.RateLimiter.Acquire` | lib/gemini_shared.py:80-173 | whatever other callers and refreshes do while an async caller sleeps, all grants stay within limits; the caller's attempts are under the limit it read first, with its own readings, and it is granted once, at its last turn; the log is that of all attempts made |
| `RateLimiters.RateLimiter.Meanwhile` | lib/gemini_shared.py:80-173 | attempts of others and refreshes keep every grant within limits and touch no log but their own |
| `RateLimiters.SameLogSameAttempts` | lib/gemini_shared.py:97-173 | what attempts do depends on the log alone, not on when the clock was last read |
| `RateLimiters.RateLimiter.Refresh` | lib/gemini_shared.py:243-269 | new limits and gap in place, the logs stay |
| `GenerationWorkers.InFlightWithinLargestLimit` | lib/generation_worker.py:54-67 | over every run of claims, drains and reloads a lane never holds more tasks than the largest limit ever in force for it |
| `GenerationWorkers.FullLaneNeverGrows` | lib/generation_worker.py:54-58 | a lane at or above its current limit never grows |
| `GenerationWorkers.StepGrowth` | lib/generation_worker.py:412-455 | a step takes tasks out of a lane or adds one where there was room |
| `GenerationWorkers.ReloadKeepsEveryLane` | lib/generation_worker.py:283-314 | reloading keeps every lane's tasks and their union, every limit is the configured one or 0, and exactly the registered providers and those with tasks in flight have a pool |
| `GenerationWorkers.RelimitKeepsEveryLane` | lib/generation_worker.py:316-333 | setting the limits of one provider keeps every lane and every other limit, and makes the pool if there is none |
| `GenerationWorkers.TasksStayInOwnLane` | lib/generation_worker.py:449-455 | every task in flight is in the lane of its own provider and medium, so in one only |
| `GenerationWorkers.RoutedOneMore` | lib/generation_worker.py:403-459 | one claim extends the record of which lane each dispatched task went to |
| `GenerationWorkers.ProgressOneMore` | lib/generation_worker.py:403-459 | one claim keeps the account of the whole call: tasks claimed are different, and only a last one may be put back |
| `GenerationWorkers.ClaimedOneMore` | lib/generation_worker.py:403-459 | one claim takes one task out of the queue, so the loop ends |
| `GenerationWorkers.NothingBusyMeansNothingInFlight` | lib/generation_worker.py:371-375 | no busy pool means no task in flight anywhere |
| `GenerationWorkers.GenerationWorker.AnyPoolHasRoom` | lib/generation_worker.py:274-281 | the loop over the pools, which stops at the first room it finds, answers yes exactly if some lane of the medium has room |
| `GenerationWorkers.GenerationWorker.Place` | lib/generation_worker.py:412-455 | a task is dispatched only into room, rejected only for zero capacity, put back only from a full lane, and nothing else moves; a provider without a pool gets one with the default limits |
| `GenerationWorkers.GenerationWorker.ClaimOne` | lib/generation_worker.py:403-459 | the claimed task runs, has failed, or is queued again, explained by the pools at its own moment, with reloads before and after |
| `GenerationWorkers.GenerationWorker.ClaimMedia` | lib/generation_worker.py:394-461 | claims nothing unless some lane of the medium has room at first; terminates whatever reloads come between its awaits; its claims are of different tasks, each dispatched into room, failed for zero capacity or put back from a full lane at its own moment of the run, and only the last one may be put back; it stops only because the queue gave no task, a task was put back, or no lane of the medium has room |
| `GenerationWorkers.GenerationWorker.ClaimTasks` | lib/generation_worker.py:394-461 | the same for images, then videos, so at most one task per medium is put back, and no image is claimed unless some image lane has room at first; reports whether a task was dispatched or failed; each medium stops for one of the three reasons |
| `GenerationWorkers.GenerationWorker.DrainFinished` | lib/generation_worker.py:492-498 | exactly the finished tasks leave every lane, and every limit stays |
| `GenerationWorkers.GenerationWorker.ReloadLimits` | lib/generation_worker.py:283-314 | equals `Reloaded`, or nothing if the configuration cannot be read; no in-flight task moves |
| `GenerationWorkers.GenerationWorker.Turn` | lib/generation_worker.py:354-386 | recovery happens exactly on gaining the lease when every task in flight has finished; afterwards each task that was queued, or running before a recovery, runs in its lane, has failed, or is queued, and every other status is as it was; with the lease both media are tried, without it nothing is claimed |
| `Reconnect.MergeIsExact` | server/agent_runtime/service.py:608-664 | if history is the first h messages of the stream and the turn messages of the buffer, echoes aside, a later overlapping part, with stream events and system messages anywhere, the view has every message of the stream once and in order, plus surviving echoes and system messages; without those two it is exactly the stream so far |
| `Reconnect.ScanKeepsWhatIsNew` | server/agent_runtime/service.py:632-664 | in any buffer the turn messages that are not echoes survive exactly if the history lacks their uuid, in order |
| `Reconnect.ScanOfTurns` | server/agent_runtime/service.py:639-642 | stream events and system messages take no part in the scan |
| `Reconnect.NoEchoBesideItsMessage` | server/agent_runtime/service.py:666-703 | a local echo never survives beside a real buffered user message with the same text |
| `Reconnect.EchoOrMessage` | server/agent_runtime/service.py:856-873 | the same for a given echo and message, with the texts collected from the buffer itself |
| `Reconnect.EchoSurvivesExactly` | server/agent_runtime/service.py:666-703 | a local echo is dropped if and only if its uuid is stored, or its text is that of a genuine user message of the buffer, or the last genuine user message of the history has its text, is not older and has no result behind it |
| `Reconnect.SystemMessagesStay` | server/agent_runtime/service.py:639-642 | every system message of history and buffer is in the view, in order, and stream events are not |
| `Reconnect.TailUntilRoundStarts` | server/agent_runtime/service.py:632-664 | fingerprints of the history count exactly until a new round starts in the buffer |
| `Reconnect.ReplyWithoutUuid` | server/agent_runtime/service.py:666-703 | a reply without uuid is dropped exactly if a reply of the history behind its last genuine user message has the same fingerprint and no new round has started |
| `Reconnect.LastRealUser` | server/agent_runtime/service.py:705-711 | the last genuine user message, none if there is none |
| `Reconnect.LastResultIsLast` | server/agent_runtime/stream_projector.py:455-483 | the last result shown is the one with no result behind it |
| `Reconnect.AssistantStreamProjector.constructor` | server/agent_runtime/stream_projector.py:433-445 | batch initialisation shows the grouping of the whole list and its last result |
| `Reconnect.AssistantStreamProjector.ApplyMessage` | server/agent_runtime/stream_projector.py:455-483 | applying a message shows the grouping of the longer list, so batch and single messages agree however they are split |
| `Reconnect.BuildProjector` | server/agent_runtime/service.py:608-664 | the turns are the grouping of the merged list |
| `VersionManagers.HistoryIsAppendOnly` | lib/version_manager.py:132-303 | over every run of adds, tracks, restores and outside writes, numbers stay exactly 1..n with the current one among them, records are only appended, and no recorded version's file is created, changed or removed |
| `VersionManagers.StepKeeps` | lib/version_manager.py:132-303 | the same for one event |
| `VersionManagers.RestoreBringsBack` | lib/version_manager.py:259-303 | restoring version n after any later run gives back the bytes the source had when n was added, its prompt, and makes n current |
| `VersionManagers.PathsAreInjective` | lib/version_manager.py:170-175 | version paths are injective in resource, number and time stamp |
| `VersionManagers.FileNamesAreInjective` | lib/version_manager.py:173 | file names are injective in id, number and time stamp, also for ids that end like a version |
| `VersionManagers.NewPathIsFree` | lib/version_manager.py:163-175 | the path of a new version is no recorded version's path |
| `VersionManagers.RestoreFailsExactly` | lib/version_manager.py:274-297 | restoring succeeds exactly for a recorded number whose file exists, and a failed call changes nothing; the error says which case it is, and a success makes the version current and copies its file |
| `VersionManagers.TrackedOnce` | lib/version_manager.py:241-257 | after a tracked file any later call of `ensure_current_tracked` adds nothing, whatever happened in between |
| `VersionManagers.TakesNextNumber` | lib/version_manager.py:163-168 | the highest number on record is the number of records |
| `VersionManagers.AddedIsCurrent` | lib/version_manager.py:132-194 | a version added has the next number, is the current one, lies behind all earlier records and has the bytes of the source under its own path; nothing else changes; it fails exactly for an unknown type or a source that is the file to be written |
| `VersionManagers.TrackedExactly` | lib/version_manager.py:222-257 | tracking adds version 1 with the bytes of the file exactly for an existing file of a known type without versions, and changes nothing otherwise |
| `VersionManagers.HighestVersion` | lib/version_manager.py:164-167 | the maximum over the records, 0 for none |
| `VersionManagers.VersionManager.AddVersion` | lib/version_manager.py:132-194 | record, copy and current number as specified; nothing changes for an unsupported type or a copy onto itself |
| `VersionManagers.VersionManager.EnsureCurrentTracked` | lib/version_manager.py:222-257 | adds only for an existing file without any version, checking existence before the type |
| `VersionManagers.VersionManager.RestoreVersion` | lib/version_manager.py:259-303 | the four error cases in order, else the copy and the new current number |
| `VersionManagers.VersionManager.GetVersions` | lib/version_manager.py:87-116 | all records in order with their addresses, exactly the current one flagged |
| `ShotParser.RoundTripExactly` | lib/reference_video/shot_parser.py:25-66 | printing shots as `Shot k (Ns): text` and parsing gives the same shots if and only if there are shots, durations are 1 to 15 and each text is trimmed, has `\n` as its only break, no space behind its first line and no header after it |
| `ShotParser.ReprintingParsedShots` | lib/reference_video/shot_parser.py:43-66 | shots that were parsed come back from their own print if and only if no first line ends in a space and no later line is a header |
| `ShotParser.ReprintingCanChangeAShot` | frontend/src/components/canvas/reference/ReferenceVideoCard.tsx:97-104 | a prompt whose shot is changed by printing and parsing it again |
| `ShotParser.ParsedShots` | lib/reference_video/shot_parser.py:43-66 | every parsed shot is in range, trimmed, with `\n` as its only break |
| `ShotParser.HeaderDecidesThePattern` | lib/reference_video/shot_parser.py:13-16 | the matcher accepts a line if and only if the regular expression does |
| `ShotParser.PatternIsHeader` | lib/reference_video/shot_parser.py:13-16 | a matching line yields the duration of its digits and the text behind the spaces |
| `ShotParser.HeaderIsPattern` | lib/reference_video/shot_parser.py:13-16 | an accepted line decomposes into pieces the pattern allows, with that duration and text |
| `ShotParser.PrintedHeader` | lib/reference_video/shot_parser.py:13-16 | a printed header is read back with its duration and its text stripped |
| `ShotParser.SplitAtNewline` | lib/reference_video/shot_parser.py:38 | lines of a text are the lines up to a newline and the lines after it, also behind a carriage return |
| `ShotParser.JoinOfLines` | lib/reference_video/shot_parser.py:38-47 | with no other breaks joining the lines gives the text back |
| `ShotParser.BrokenAt` | lib/reference_video/shot_parser.py:38 | a text is one line up to the first of the ten line breaks of `str.splitlines`, `\r\n` being one break |
| `PythonText.StripTakesSpaces` | lib/reference_video/shot_parser.py:44 | stripping takes all 29 white-space characters from both ends and nothing else |
| `ShotParser.SegmentsComeBack` | lib/reference_video/shot_parser.py:43-58 | print and cut give the same shots if and only if every text is plain |
| `ShotParser.ParseShots` | lib/reference_video/shot_parser.py:38-66 | the left-to-right loop equals the recursive cut at headers, with the single-shot default and the duration check |
| `ShotParser.SectionsInOrder` | lib/reference_video/shot_parser.py:43-58 | a header starts a shot that goes on to the next header, with the header's duration and the stripped text behind and under it; what is before the first header is put in front of the first shot |
| `ShotParser.ParsedExactly` | lib/reference_video/shot_parser.py:60-66 | a text without a header is one shot of one second, marked so; any other is the shots of its headers exactly if all last 1 to 15 seconds |
| `ShotParser.ParsePrompt` | lib/reference_video/shot_parser.py:25-66 | shots, distinct mentions and the override flag, or the duration error |
| `ShotParser.ExtractMentions` | lib/reference_video/shot_parser.py:69-77 | all mentioned names once, in order of first occurrence |
| `ShotParser.MentionSpelling` | lib/reference_video/shot_parser.py:22 | a mention is an `@` and the longest run of word characters behind it |
| `ShotParser.MentionExactly` | lib/reference_video/shot_parser.py:18-22 | a mention is exactly where an `@` stands behind no ASCII letter, digit or underscore and before a character of a name |
| `ShotParser.NoneInside` | lib/reference_video/shot_parser.py:22 | no mention begins inside a mentioned name, so scanning on behind it misses none |
| `ShotParser.ResolveReferences` | lib/reference_video/shot_parser.py:99-126 | references are the registered names and missing the others, each in order; character before scene before prop; the kind is that of the first of the characters, scenes and props with the name |
| `ShotParser.IndexByName` | lib/reference_video/shot_parser.py:82-84 | each name has its last position in the list, counted from 1 |
| `ShotParser.RenderPrompt` | lib/reference_video/shot_parser.py:80-91 | the output is the text with each mention that has a number replaced by it and every other token as it stands |
| `ShotParser.RenderedFrom` | lib/reference_video/shot_parser.py:80-91 | from left to right a mention becomes its number in brackets behind the picture sign or stays if it has none, and every other character stays |
| `ShotParser.TokensAreTheText` | lib/reference_video/shot_parser.py:80-91 | the tokens spell the text and their mentions are the text's, so rendering leaves every other character in place |
| `ShotParser.OwnMentionsAreRanked` | lib/reference_video/shot_parser.py:80-126 | with references resolved from the text's own mentions, exactly the registered names get a number, and the numbers 1..n follow first occurrence |
| `Storyboard.EveryDependencyIsThePlanBefore` | lib/storyboard_sequence.py:112-159 | every dependency is the resource of the plan right before, same group, index one higher; a plan without one has index 0 in a group no earlier plan is in |
| `Storyboard.OnePlanPerSelectedItem` | lib/storyboard_sequence.py:127-157 | one plan per selected item in order, without dependency exactly at a break or when the item before is absent or not selected |
| `Storyboard.WholeStoryboardFollowsTheGroups` | lib/storyboard_sequence.py:90-159 | when every item is selected the plan is that of the groups cut at the segment breaks |
| `Storyboard.GroupingIsUnique` | lib/storyboard_sequence.py:90-109 | there is only one way to cut items into non-empty groups at the breaks |
| `Storyboard.GroupNamesDiffer` | lib/storyboard_sequence.py:142 | different group numbers have different names |
| `Storyboard.GroupScenesBySegmentBreak` | lib/storyboard_sequence.py:100-109 | the groups are non-empty, concatenate to the items and are cut exactly before the breaks |
| `Storyboard.BuildDependencyPlan` | lib/storyboard_sequence.py:118-159 | the loop equals `Plans`, the empty selection included |
| `Storyboard.PlanOrderResolvesEveryDependency` | lib/generation_queue_client.py:306-325 | enqueued in plan order every dependency resolves, to the task of the plan right before, also when ids repeat |
| `Storyboard.EveryTaskIsAwaited` | lib/generation_queue_client.py:327-341 | each spec waits for the task it was given if and only if specs with the same resource were given the same task |
| `Storyboard.RepeatedTasksAreAwaited` | lib/db/repositories/task_repo.py:132-158 | with the queue answering a repeated active task with its id, whatever tasks end while the batch is enqueued, that is so if and only if specs with the same resource agree on type and script and the first one's task has not ended when the second is enqueued |
| `Storyboard.SameTaskExactly` | lib/db/repositories/task_repo.py:132-158 | two specs of a batch are given the same task exactly if type, resource and script agree and the first one's task has not ended when the second is enqueued |
| `Storyboard.SecondSpecTakesOver` | lib/db/repositories/task_repo.py:132-158 | of two specs with one resource on an idle queue the first waits for its own task if and only if type and script agree and that task has not ended before the second call |
| `Storyboard.NotEveryTaskIsAwaited` | lib/generation_queue_client.py:306-341 | the same scene of two scripts: the first spec gets the result of the second task |
| `Storyboard.ResultsAreSplit` | lib/generation_queue_client.py:343-355 | successes and failures together are all results, each in the list its status names |
| `Storyboard.ResultsTellTheOutcome` | lib/generation_queue_client.py:271-292 | each result names its resource and the task waited for, the last one given to that resource; it has failed, was cancelled or has succeeded exactly as waiting raised or the task ended, with the message at hand |
| `Storyboard.EnqueueAll` | lib/generation_queue_client.py:306-325 | each call carries the task of the last earlier spec with the named resource, or none |
| `Storyboard.BatchEnqueueAndWait` | lib/generation_queue_client.py:295-355 | calls, results and the two lists as specified, whatever each task's end |

## Left out

- `versions/clues` is not part of the disk model; `_relocate_clue_files` returns early once `clues/` is gone, so a crash after its removal can leave that directory behind (lib/project_migrations/v0_to_v1_clues_to_scenes_props.py:35-36, 59-72).
- Network calls, the SDK client, real databases and their dialects: a uuid conflict skips a row, a key conflict aborts the attempt, everything else of a transaction is atomic.
- TranscriptStore.SummaryIsTheFold: the summary keeps the sequence of entries folded instead of the folded value, because the fold itself is not part of this repository; deletes of a session with a main append in flight are excluded, because there the claim is false.
- Times in the listings of the transcript store, and the listing of sub-keys.
- Turn grouping, message fingerprints and the plain text of a message are functions or data of the reconnect model; system messages bypass de-duplication in the source and are kept as they come.
- Draft turns, stream events and the hiding of stale drafts (`DraftAssistantProjector`, `_hide_stale_draft_turn`): the properties proved here do not depend on them.
- SessionActors.SessionActor.Enqueue: `start`, `wait` and cancelling the whole actor from outside are not methods of the model; a control-flow exception at an `await` is an event.
- Two tasks finishing inside one scheduler tick are two events of the actor; the order in which `asyncio` cancels a pending `get` is not modelled.
- RateLimiters.RateLimiter.Acquire: runs through given clock readings, because a bound on waiting exists only with exact sleeps (`RateLimiters.AcquireAlone`); times are reals without rounding.
- GenerationWorkers.GenerationWorker.Place: pools are values in a map instead of objects shared between maps, so aliasing between old and new pools during a reload is not captured.
- Provider lookup is total and putting a task back succeeds in the worker; nothing is enqueued while a call of the claim loop runs; exclusivity of the lease between workers is not modelled.
- Caller metadata of a version record, creation times, and a crash between the copy and the write of `versions.json`.
- VersionManagers.PathsAreInjective: paths are strings, so ids with `..` or other path syntax are not resolved; time stamps have fifteen characters.
- Python's limit on the length of a number that `int` reads; digits are those of Unicode 14.
- Which characters outside ASCII and the CJK block U+4E00 to U+9FFF `\w` matches: the set is a parameter of the mention functions, and everything holds for any.
- The total duration of a unit, and the callbacks of a batch.
- Pydantic's own schema generation; dictionaries are lists of fields in order.
- Migration runs on one machine: a rename and an atomic JSON write are single steps, backups before a migration and unreadable directories are not modelled.
- Frontend rendering, routers, configuration tables, cost tables, grid layout, status counters, the JSON validator and authentication.
