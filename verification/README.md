# A verified model of the Drive sync engine

This project models the synchronisation core of the desktop client in Dafny and proves what that core is for: when a
cycle runs to its end, that it then has brought the local folder and Google Drive together and can be followed by the
next one, exactly when a cycle that fails half-way is resumed, that a conflict action keeps the local bytes wherever it
stops, which edits survive a whole cycle, which changes below the page token were handled and which were passed over,
what a second cycle finds to do, and that the protocols around it (rate limiter, pending queue, resumable upload,
account deletion) keep their promises under every schedule. Where the code stops short of its intent, the model keeps
the code's behaviour, and the exact condition under which the intent is met is proved.

Verify with `dafny verify dfyconfig.toml`.

## How it is built

- `Model`, `Actions`, `LocalFiles`, `Paths`: files, rows, changes, actions, the local tree and its names. A content
  hash is an ideal one (equal hashes, equal contents); times are whole nanoseconds.
- `LocalDiff`, `RemoteDiff`, `Merge`, `Queue`: the two comparisons, the merge and the queue, written as the loops of
  the source and proved equal to path-by-path specifications.
- `Executor`, `Trees`: every action is a list of single effects on three stores (local tree, Drive, table). The class `Host`
  performs them one by one; a fault may hit any of them (it fails, its reply is lost, a write stops half-way).
  `MayStop` names every world in which an interrupted action can end.
- `Safety`, `Effects`: what an interrupted action leaves behind, and what a completed one does in one step.
- `Convergence`, `Completion`, `Resume`, `Orphans`, `Cycles`, `Losses`, `Edits`, `Iteration`, `Landing`, `NextCycle`:
  the theorems about whole cycles and about many.
- `Witnesses`: concrete cycles, ordinary in every other respect, in which the engine falls short of its intent.
- `RateLimit`, `Scheduler`, `Upload`, `FileStates`, `Accounts`: the protocols and the storage beside the cycle.
  Atomic accesses of the token bucket are interleaved steps of any number of threads; the scheduler is a state machine
  over its events; the upload runs against a server that may store part of a chunk or lose a reply.

What comes from outside (the clock, fresh ids, stamps, the answers of servers, the order of a directory listing or of
a map, the pause flag, faults) is a parameter over which every statement quantifies.

## What the proofs found in the code

- A live Drive file that no row knows is dropped when its parent is neither the sync root nor a file with a row or an
  earlier change; the page token moves past it, and the cycle counts as converged (`DroppedFileIsForgotten`). So a new
  file in a Drive folder without a row never arrives, nor does one that is listed before its parent
  (`NewFileLandsExactly`, `ParentsFirstLandsExactly`). Moving a file with a row to the trash is passed over as well: row
  and local file stay (`KnownFileKeepsItsPath`). Both kinds of change might as well not be in the list
  (`OverlookedIsNoChange`), and they are the only ones below the token that nothing handled (`NoneLostButOverlooked`).
- A file with a row that is renamed or moved on Drive keeps its local path (`MoveIsNotFollowed`,
  `KnownFileKeepsItsPath`).
- The executor takes an action from the queue before it looks at the pause flag and then returns success, so the page
  token moves past changes that were never handled (`PauseForgetsAChange`; `PauseLosesExactly` says when nothing is lost).
- A new local file and a new Drive file of the same name: the download replaces the local bytes without a conflict copy
  (`TwinLosesBytes`). A local edit that meets a removal on Drive is deleted (`RemovalLosesBytes`).
- A conflict copy can take the free name of a file that was deleted on both sides; the deletion that is queued for that
  file then removes the copy (`DeletedCopyLosesBytes`). `EditSurvivesExactly` and `AllEditsSurviveExactly` say which
  edits survive a cycle.
- A file deleted on both sides makes the local deletion fail in this cycle and, as long as nobody else touches the
  folder, in every later one (`GoneNeverCompletes`, `BlockedForever`; `DeletionRunsExactly` says when it goes through).
- A new Drive file whose name is that of a file with a row takes the row over. If the file that lost its row is the
  parent of another new file, a failure in between makes the next comparison forget the child (`OrphanIsForgotten`;
  `FailedCycleResumesExactly` says when nothing is forgotten).
- A file that has the name of the temporary file of a download is overwritten and then gone (`AtomicSparesExactly`); the
  walk treats such files as ordinary ones.
- While the queue of folders drains, requests and polls wait until as many folders have left as it held, so one folder
  that keeps failing keeps the scheduler from listening (`ListensExactly`).
- A download stores Drive's modification time as the local one but does not set it on the file, so the next walk takes
  the file for edited unless it was written at that very time (`DownloadLooksEdited`): the cycle after a download is not
  empty although nobody has touched anything (`DownloadIsUploadedNext`; `SecondCycleIsEmptyExactly` says when it is).
- The table keeps the local modification time in milliseconds and the walk compares it with the file's own, finer one:
  a file whose time is not a whole millisecond is uploaded again in every later cycle (`UploadedForeverExactly`,
  `TouchedIsUploadedAgain`).
- The table keeps milliseconds, and loses a time before 1970 that lies inside a second (`TimeSurvives`); a change whose
  time the table cannot keep is fetched again after a failure (`DoneIsQuiet`).
- A file whose extension already is `gds_tmp` is its own temporary file and is not written atomically (`AtomicExactly`).
- The duplicate test on a scheduler request and the `/.git/` substring test of the walk never find anything
  (`TakenRequestAlwaysEnters`, `GitPartIsDead`).
- A second remote action on a path replaces a conflict that was already formed, and with it the local bytes
  (`SecondActionLosesBytes`; `ConflictNeedsOneRemoteAction` says when a conflict comes out).
- A 308 is taken for "whole chunk stored"; a chunk stored in part makes the upload fail, never succeed with wrong bytes
  (`UploadChunksResumable`).
- The comment on `conflict_copy_path` shows names without the extension behind the stamp; the code repeats the extension
  there, and the model follows the code.

## Model

| member | source | states |
|---|---|---|
| `Convergence.CycleConverges` | crates/gds-core/src/sync/executor.rs:69-326 | from rows that record the last common content and changes that list every Drive edit since, a cycle that runs to its end leaves every row's file with the content of its Drive file, and every other file that is not ignored is a conflict copy made in this cycle |
| `Completion.CycleCompletes` | crates/gds-core/src/sync/executor.rs:69-326 | from a faithful start, if no file is where a directory is needed, no directory where a file is fetched, directories have ordinary names, outside ids are fresh and every file to be deleted is there: a cycle in which nothing fails runs to its end and converges |
| `Completion.CycleCompletesExactly` | crates/gds-core/src/sync/executor.rs:312-323 | under the same conditions on directories and ids, when the files to be deleted have ordinary names or are there, such a cycle runs to its end if and only if all of them are there |
| `Convergence.SettledAtStart` | crates/gds-core/src/sync/diff.rs:32-264 | a path for which walk, changes and merge give no action is already the same on both sides |
| `Convergence.ShapeOfQueue` | crates/gds-core/src/sync/diff.rs:214-264 | whatever the merge puts in the queue carries the row, the Drive file and the local file that its kind needs, and fetches a known Drive file only to the path of its own row |
| `Convergence.StepKeepsInv` | crates/gds-core/src/sync/executor.rs:89-326 | each completed action of any kind, in any order, brings its own path into step, keeps every finished path in step and leaves every path still to be handled as it was |
| `Convergence.ConflictPathNotTmp` | crates/gds-core/src/sync/path.rs:85-117 | the conflict copy of an ordinary file never looks like a temporary file |
| `Iteration.RemoteActionLands` | crates/gds-core/src/sync/executor.rs:192-323 | at the end of a completed cycle, for every action that the comparison with the changes emitted: the path of a fetched file has a row with that file's id and its content, the path of a removed file has neither row nor file (which changes emit one is said by `LandsExactly`) |
| `Landing.LandsExactly` | crates/gds-core/src/sync/diff.rs:141-208 | a changed file that was not removed has a row in step with Drive at the end of a completed cycle if and only if its change emitted an action, or it had a row before that no queued action replaces or deletes |
| `Landing.NewFileLandsExactly` | crates/gds-core/src/sync/diff.rs:160-182 | a new Drive file has a row in step at the end of a completed cycle if and only if, when its change is met, its parent is the sync root or has a path, and the row of another file at its path does not already have its hash and time |
| `Landing.ParentsFirstLandsExactly` | crates/gds-core/src/sync/diff.rs:153-182 | in a parents-first list the same holds if and only if the chain of parents of the file leads to the sync root or to a file with a row, with the same exception |
| `Landing.OverlookedIsNoChange` | crates/gds-core/src/sync/diff.rs:155-174 | without a change that is passed over (a new file below an unknown parent, or the trash for a file with a row) the comparison emits exactly the same actions for the rest of the list |
| `Landing.MoveIsNotFollowed` | crates/gds-core/src/sync/diff.rs:166-168 | whatever new name and parents a change brings for a file with a row, the comparison asks for the same action at the path of the row, and the paths of the files below it do not change |
| `Landing.KnownFileKeepsItsPath` | crates/gds-core/src/sync/diff.rs:155-168 | a completed cycle leaves no row for a known file but at its old path; a file in the trash keeps row and content if and only if no queued action replaces or deletes them |
| `Iteration.FaithfulAgain` | crates/gds-core/src/sync/executor.rs:329-373 | a cycle that completes, or fails before its next action has reached the table, leaves a table from which the next cycle converges, whatever is edited in between, if Drive answers uploads with true hashes and the changes list every Drive edit |
| `Iteration.EveryRoundConverges` | crates/gds-daemon/src/scheduler/mod.rs:36-162 | over any number of cycles, complete or failed, each with one change per file, with edits on either side in between, every complete one ends with both sides in step |
| `Resume.FailedCycleResumes` | crates/gds-core/src/sync/executor.rs:69-326 | whichever effect of whichever action a cycle fails at, comparing the same changes again emits the same action for every change whose action has not run, and for one whose action has run nothing, unless the table could not keep its time; a new file may take over the row of another one that is not the parent of a new file |
| `Orphans.FailedCycleResumesExactly` | crates/gds-core/src/sync/executor.rs:69-326 | whichever effect of whichever action a cycle fails at, the next comparison of the same changes finds exactly the work that is left if and only if the chain of parents of every new file still to be fetched, read from the rows that remain and the fetched files, leads to the same path again |
| `Resume.DoneIsQuiet` | crates/gds-core/src/sync/diff.rs:141-208 | a change whose action has run emits nothing again if and only if it is a removal or its modification time survives storage |
| `Resume.PendingIsEmittedAgain` | crates/gds-core/src/sync/diff.rs:141-208 | a change whose action has not run emits exactly the same action, although earlier downloads have turned unknown files into known ones |
| `Resume.FetchesFirst` | crates/gds-core/src/sync/change.rs:134-142 | while a fetch is pending, no upload and no delete of the queue has run, so no parent path it needs has gone |
| `Resume.OrphanIsLost` | crates/gds-core/src/sync/diff.rs:160-182 | in every cycle: once the path of a known file has been taken over, the pending change of a new file below it emits nothing any more, so the condition on parents is needed |
| `Resume.IndexFullAfter` | crates/gds-core/src/sync/diff.rs:131-139 | after any part of a cycle no two rows share a Drive file, so the index by Drive id of the next cycle holds every row |
| `Resume.PathsAgree` | crates/gds-core/src/sync/diff.rs:153-182 | every path the first comparison knew at a change is known, unchanged, to the second one at the same change, except that of a file whose path was taken over |
| `Resume.RemoteComesFromChanges` | crates/gds-core/src/sync/diff.rs:141-208 | the remote actions are exactly the actions of the single changes, each taken with the paths known before it |
| `Cycles.NoneLostButOverlooked` | crates/gds-daemon/src/scheduler/mod.rs:36-162 | over any number of cycles with failures at any effect or at storing the token, and anything else happening in between, but no pause: every change below the page token was fetched by a cycle that ran its whole queue, and was handled there if and only if the comparison did not pass over it (a new file below an unknown parent, or the trash for a file with a row) |
| `Cycles.CompletedHandles` | crates/gds-core/src/sync/executor.rs:69-86 | in a completed cycle a fetched change asked for nothing, or its action, the conflict made of it, or that of a later change for the same path ran, if and only if the comparison did not pass over it |
| `Cycles.NothingEmittedExactly` | crates/gds-core/src/sync/diff.rs:141-199 | a change emits nothing if and only if it asks for nothing (its file is gone and has no row, it brings no file, or the row has its hash and time) or is passed over, and never both |
| `Cycles.PauseLosesExactly` | crates/gds-core/src/sync/executor.rs:77-85 | a paused cycle has handled every change that was not passed over if and only if all actions it did not run come from the local side |
| `Cycles.FetchAllChanges` | crates/gds-daemon/src/scheduler/mod.rs:164-192 | the result is the concatenation of all pages of the chain with the last new start token, and a failing page fails the whole fetch |
| `Cycles.LastStartIsLast` | crates/gds-daemon/src/scheduler/mod.rs:177-180 | the new start token is that of the last page that has one |
| `Cycles.FetchedIsTheLog` | crates/gds-daemon/src/scheduler/mod.rs:164-192 | on a server that cuts its log into pages in any way, the fetched list is the log from the token to its end, without gap or repetition, and the new token stands at that end |
| `Cycles.CycleIsTurn` | crates/gds-daemon/src/scheduler/mod.rs:84-159 | a cycle as it is run is a turn in the sense of the theorem about many cycles: it takes the log from its token, and the token it commits is the end of what it took |
| `Cycles.SyncFolder.RunSyncLoop` | crates/gds-daemon/src/scheduler/mod.rs:36-162 | a cycle gets to its queue if and only if there is a first token that can be stored and every page arrives; it then runs the merged, sorted queue on the world it found; without faults and pauses it completes whenever the queue can run; the token moves exactly when the executor returns success, pause included, and the database stores the new token; and however it ends, tree and table are in order for the next one |
| `Trees.ActionKeepsOrder` | crates/gds-core/src/sync/executor.rs:89-326 | wherever an action stops, every entry of the tree still lies in an existing directory, nothing is both file and directory, and every row stands at its own path |
| `Cycles.SyncFolder.Compare` | crates/gds-daemon/src/scheduler/mod.rs:89-94 | the queue holds, for every path, exactly the merged action of that path, once: all downloads, then all conflicts, all uploads, all deletions |
| `Edits.EditSurvivesExactly` | crates/gds-core/src/sync/executor.rs:69-326 | over a whole cycle from a faithful start: the bytes of a new or edited local file are at its path, in the copy its conflict made, or on Drive for its row at the end, if and only if no remote action meets it, or the one that does brings the same content, or is an update and no deletion is queued for the name of the copy |
| `Edits.OrdinaryEditSurvivesExactly` | crates/gds-core/src/sync/diff.rs:222-262 | when every queued deletion is for an ordinary name or a file that is there, an edit survives its cycle if and only if no remote action meets it that removes it or puts other content over a new file |
| `Edits.AllEditsSurviveExactly` | crates/gds-core/src/sync/executor.rs:69-326 | when the sides of every conflict differ, all edits survive a completed cycle if and only if, before it runs, none meets such a remote action and every file whose deletion is queued is there |
| `Edits.CopyFate` | crates/gds-core/src/sync/executor.rs:230-323 | a conflict copy lasts to the end of the cycle if and only if no deletion is queued for its name |
| `Losses.DeletionRunsExactly` | crates/gds-core/src/sync/executor.rs:312-323 | a queued local deletion goes through if and only if its file was there when the cycle started or a conflict copy made before has its name, which never happens to an ordinary name |
| `Losses.DeletedOnBothSidesNeverCompletes` | crates/gds-core/src/sync/executor.rs:312-323 | a file of ordinary name that was deleted on both sides keeps the cycle from completing, and a cycle that fails leaves its row and its absence as they were |
| `Losses.BlockedForever` | crates/gds-daemon/src/scheduler/mod.rs:116-159 | over any number of unpaused cycles during which nobody else touches the folder, each with one remote action per path and no two rows for one Drive file, a file of ordinary name that was deleted on both sides makes every one of them fail, and the page token never moves |
| `Losses.DownloadLooksEdited` | crates/gds-core/src/sync/executor.rs:351-373 | after a download, alone or in a conflict, the walk takes the file for edited if and only if the time of the write differs from Drive's time as stored |
| `Losses.UploadLooksSettled` | crates/gds-core/src/sync/executor.rs:329-349 | after an upload neither the walk nor a change that reports what Drive answered asks for anything, exactly when the table can keep the two times |
| `NextCycle.WalkIsQuietExactly` | crates/gds-core/src/sync/diff.rs:32-119 | after a completed cycle the walk finds nothing if and only if every fetched file that it sees was written at the time Drive gives for it, as stored, the table keeps the time of every uploaded file, and no conflict copy is left |
| `NextCycle.FoundAtPath` | crates/gds-core/src/sync/diff.rs:32-119 | path by path: the walk finds something at a path if and only if the time of the file of its action does not fit, or a conflict copy is left there |
| `NextCycle.SecondCycleIsEmptyExactly` | crates/gds-daemon/src/scheduler/mod.rs:84-114 | when nothing happens after a completed cycle but that Drive reports the uploads and deletions of that cycle, the queue of the next one is empty if and only if those times fit, no conflict copy is left, and the table keeps the times that Drive answered with |
| `NextCycle.UploadedForeverExactly` | crates/gds-core/src/sync/executor.rs:329-349 | over any number of complete cycles during which nobody touches anything, a file that the first one uploaded is uploaded again by every later one if and only if the table cannot keep its modification time |
| `Witnesses.TwinLosesBytes` | crates/gds-core/src/sync/diff.rs:251-255 | a new file on both sides: an otherwise ordinary cycle completes and the local bytes are in no local and no Drive file |
| `Witnesses.RemovalLosesBytes` | crates/gds-core/src/sync/diff.rs:256-260 | a local edit and a removal on Drive: the same |
| `Witnesses.DeletedCopyLosesBytes` | crates/gds-core/src/sync/executor.rs:230-323 | an edit that only meets an update: its conflict copy takes the name of a file deleted on both sides and is deleted in the same cycle |
| `Witnesses.SecondActionLosesBytes` | crates/gds-core/src/sync/diff.rs:222-262 | two remote updates for one path: the first alone gives a conflict, both give a plain download and the edited bytes are nowhere |
| `Witnesses.GoneNeverCompletes` | crates/gds-core/src/sync/executor.rs:312-323 | a cycle with a file deleted on both sides that cannot complete, whatever the environment |
| `Witnesses.OrphanIsForgotten` | crates/gds-core/src/sync/diff.rs:160-182 | a cycle that fails between two downloads, after which the same changes no longer emit the second one |
| `Witnesses.PauseForgetsAChange` | crates/gds-daemon/src/scheduler/mod.rs:155-159 | a cycle, ordinary in every other respect, after whose pause the page token stands behind a change whose action never ran |
| `Witnesses.UnpausedItConverges` | crates/gds-core/src/sync/executor.rs:192-229 | the same cycle without the pause runs to its end, with the new Drive file in place and both sides in step |
| `Witnesses.DroppedFileIsForgotten` | crates/gds-core/src/sync/diff.rs:172-174 | a cycle, ordinary in every respect, that completes and converges while the page token moves past the change of a new Drive file of which there is neither row nor local file |
| `Witnesses.DownloadIsUploadedNext` | crates/gds-core/src/sync/executor.rs:351-373 | a cycle that downloads one new file, and the next one, without any change, whose queue is the upload of that file |
| `Witnesses.TouchedIsUploadedAgain` | crates/gds-core/src/sync/executor.rs:329-349 | two cycles in which nobody touches anything and both of which upload the same file |
| `Safety.ConflictKeepsBytes` | crates/gds-core/src/sync/executor.rs:230-294 | wherever a conflict stops, the local bytes are at the path or at the copy, the path (unless it is its own temporary file) holds the local or the server content, and no file changes but these two and their temporary files |
| `Safety.ConflictCompletes` | crates/gds-core/src/sync/executor.rs:230-294 | a completed conflict leaves the local bytes at a path that was free, the server's at the original path, no temporary file, and a row marked as conflict |
| `Safety.AtomicStops` | crates/gds-core/src/sync/fs.rs:238-267 | wherever an atomic write stops, the target is untouched or holds the whole new content, and nothing else changes but its temporary file |
| `Safety.AtomicExactly` | crates/gds-core/src/sync/fs.rs:238-267 | the write is all or nothing if and only if the target's extension is not `gds_tmp` or no part of the content would differ from both old and new |
| `Safety.AtomicSparesExactly` | crates/gds-core/src/sync/fs.rs:238-267 | a completed write leaves another file alone if and only if that file does not have the name of the temporary file |
| `Executor.Host.ExecuteOne` | crates/gds-core/src/sync/executor.rs:89-326 | under any faults an action ends as its completed plan does, or in one of the worlds in which the plan may stop; without faults it succeeds if and only if no effect of its plan is refused |
| `Executor.Host.WriteAtomic` | crates/gds-core/src/sync/fs.rs:238-267 | under any faults the write completes all three effects or stops between or inside them; without faults it succeeds if and only if none is refused |
| `Executor.Host.Run` | crates/gds-core/src/sync/executor.rs:69-86 | the executor runs a prefix of the queue, stops inside the next action on an error, and on a pause returns success with the next action already dropped; without faults and pauses it runs the whole queue whenever the queue can run |
| `Executor.Host.Do` | crates/gds-core/src/sync/executor.rs:89-326 | one effect fails only if the world refuses it or a fault hits it, and a refused one changes nothing |
| `Effects.ExecuteIsOneStep` | crates/gds-core/src/sync/executor.rs:89-326 | the effects of a completed action of any kind add up to one step of the world, and the row id it writes belongs to no other path |
| `Effects.RowsArePointwise` | crates/gds-core/src/sync/executor.rs:69-86 | after a run of actions for distinct paths each acted path has the row of its action, every other path its old row, and row ids stay unique |
| `Effects.WhatIsRecorded` | crates/gds-core/src/sync/executor.rs:329-373 | every field of the row that a completed upload, download or conflict leaves |
| `Effects.StoppedRows` | crates/gds-core/src/sync/executor.rs:89-326 | the table changes last: an interrupted action has left the rows alone or has done everything |
| `Merge.PipelineRefinesIsConflict` | crates/gds-core/src/sync/change.rs:147-162 | for a path with a row, a local file and one remote change, walk, comparison and merge together answer Conflict if and only if `is_conflict` holds of the row and both sides |
| `Merge.MergeIsPointwise` | crates/gds-core/src/sync/diff.rs:214-264 | with one action per path on either side the merged action of a path depends on the two actions of that path only, whatever the order of the lists |
| `Merge.FivePairsMeet` | crates/gds-core/src/sync/diff.rs:222-262 | from one snapshot of the table only five of the nine pairs of kinds can meet, and the fallback that would keep both actions is never reached |
| `Merge.ConflictNeedsOneRemoteAction` | crates/gds-core/src/sync/diff.rs:222-262 | a conflict comes out for a path if and only if the local file changed and exactly one remote action, an update, meets it |
| `Merge.MergeActions` | crates/gds-core/src/sync/diff.rs:214-264 | the result holds one action per path over the union of the paths: the last local one, folded with the remote ones in order |
| `Merge.LastAtIsLast` | crates/gds-core/src/sync/diff.rs:214-221 | the local action recorded for a path is the last one listed for it |
| `RemoteDiff.ResolvedPathIsChainPath` | crates/gds-core/src/sync/diff.rs:133-182 | every path given to an unknown file is the join of the names along its parent chain up to the sync root or a file with a row |
| `RemoteDiff.ResolvedWhere` | crates/gds-core/src/sync/diff.rs:160-182 | only the first parent of a new file counts: its path, a slash and the name, or the name alone below the sync root, or no path |
| `RemoteDiff.ParentsFirstResolvesAll` | crates/gds-core/src/sync/diff.rs:153-182 | in a parents-first list every file with such a chain is resolved, to that path |
| `RemoteDiff.OrderDoesNotMatter` | crates/gds-core/src/sync/diff.rs:153-182 | two parents-first orders of the same changes resolve every file to the same path |
| `RemoteDiff.ComputeRemoteChanges` | crates/gds-core/src/sync/diff.rs:123-211 | the loop over the changes with its growing map of paths yields the actions of the recursive specification, in order |
| `RemoteDiff.IndexById` | crates/gds-core/src/sync/diff.rs:131-134 | the index by Drive id holds, for every id that occurs, the last row listed with it, and nothing else |
| `LocalDiff.ComputeLocalChanges` | crates/gds-core/src/sync/diff.rs:32-119 | the walk ends on every finite tree and yields, once each: an upload for every visible file without a row, an update for every one whose content or time is not that of its row, a deletion for every uploaded row whose path is gone; nothing else |
| `LocalDiff.EverythingSeen` | crates/gds-core/src/sync/diff.rs:51-104 | when no directory is left to list, every entry without an ignored component has been visited |
| `LocalDiff.GitPartIsDead` | crates/gds-core/src/sync/diff.rs:61-63 | a path with `/.git/` inside has an ignored component already, so the substring test is dead |
| `LocalFiles.IgnoredExactly` | crates/gds-core/src/sync/diff.rs:52-57 | a path is skipped if and only if one of its components is `.gds_tmp` or `.git` |
| `LocalDiff.FindDeleted` | crates/gds-core/src/sync/diff.rs:106-116 | a deletion is emitted for exactly the rows with a Drive id whose path does not exist |
| `LocalFiles.ListDir` | crates/gds-core/src/sync/fs.rs:82-143 | the listing names every child of the directory exactly once and tells directories from files |
| `Queue.QueueRefinesLanes` | crates/gds-core/src/sync/queue.rs:27-42 | under any interleaving of pushes and pops the queue behaves as four first-in-first-out lanes, the most urgent first |
| `Queue.QueueConserves` | crates/gds-core/src/sync/queue.rs:27-42 | what was in the queue and what was pushed is what is left and what was popped, as multisets |
| `Queue.SortIsPushAll` | crates/gds-core/src/sync/queue.rs:20-38 | building the queue at once equals pushing the path-sorted list one element at a time |
| `Queue.QueueIgnoresOrder` | crates/gds-core/src/sync/queue.rs:20-25 | whatever order the merged actions come in, the queue is the same |
| `Queue.SyncQueue.Push` | crates/gds-core/src/sync/queue.rs:27-38 | the scan inserts the action behind the last one of at most its priority that no more urgent gap precedes |
| `Queue.SortSorts` | crates/gds-core/src/sync/queue.rs:20-25 | the list a queue is built from comes out sorted by priority, then path, with every action kept as often as it came |
| `Queue.StringLeIsLexicographic` | crates/gds-core/src/sync/queue.rs:20-25 | the order of paths is the lexicographic one: a prefix first, otherwise the first difference decides |
| `Cycles.PriorityMeans` | crates/gds-core/src/sync/change.rs:134-142 | a queue is ordered by priority if and only if all downloads stand before all conflicts, these before all uploads, and these before all deletions |
| `Paths.FirstFreeIsLeast` | crates/gds-core/src/sync/path.rs:85-117 | the search for a conflict name ends at the least free counter, after at most one name more than there are existing paths |
| `Paths.ConflictCopyPath` | crates/gds-core/src/sync/path.rs:85-117 | the loop terminates and returns a sibling that does not exist |
| `Paths.ConflictPathIsApart` | crates/gds-core/src/sync/path.rs:85-117 | copy, original and their temporary files never share a path where that would overwrite one of them |
| `Paths.CopyNames` | crates/gds-core/src/sync/path.rs:85-117 | the copy of `stem.ext` is called `stem.ext.conflict-<stamp>.ext`, the n-th try has `-n` behind the stamp, and the temporary file is `stem.gds_tmp` |
| `Paths.DecimalReads` | crates/gds-core/src/sync/path.rs:108-110 | the counter in the name reads back as the number |
| `Paths.SanitizeIsIdempotent` | crates/gds-core/src/sync/path.rs:25-33 | the segment stack yields no empty, `.` or `..` segment, and sanitising again changes nothing |
| `Paths.StackResolves` | crates/gds-core/src/sync/path.rs:25-33 | the segment stack obeys the laws of path segments: empty ones and `.` drop out anywhere, a name takes the `..` behind it away and both drop out, a leading `..` drops out, and names stay |
| `Paths.LawsDecide` | crates/gds-core/src/sync/path.rs:25-33 | these laws leave one result for every list of segments, that of the stack |
| `Paths.JoinUndoesSplit` | crates/gds-core/src/sync/path.rs:26 | splitting a path at its slashes loses nothing |
| `Paths.SafeLocalPath` | crates/gds-core/src/sync/path.rs:18-75 | success means no NUL, a candidate that extends the root by what the laws of path segments give, and that it, or its nearest existing ancestor below the root, resolves inside the root; every failure has one of these causes |
| `FileStates.SearchFindsTheKind` | crates/gds-core/src/db/file_state.rs:147-177 | whatever the message, the LIKE search for the quoted kind matches the stored text if and only if the state is of that kind |
| `FileStates.DecodeUndoesEncode` | crates/gds-core/src/db/file_state.rs:12-18 | reading the stored JSON text gives back kind and message, whatever characters the message has |
| `FileStates.StoredText` | crates/gds-core/src/db/file_state.rs:12-18 | the text that the column holds for each kind of state |
| `FileStates.LikeContains` | crates/gds-core/src/db/file_state.rs:166-169 | a pattern between two percent signs matches exactly the texts that contain it up to the case of letters |
| `FileStates.TimeSurvives` | crates/gds-core/src/db/file_state.rs:230-234 | a stored time is lost if and only if it lies before 1970 inside a second; otherwise it comes back cut to the millisecond |
| `FileStates.SecondsSurvive` | crates/gds-core/src/db/file_state.rs:247-291 | a sync time is cut to whole seconds and never lost |
| `FileStates.RowRoundTrip` | crates/gds-core/src/db/file_state.rs:247-291 | every row that is written can be read, with all fields but the precision of its times |
| `FileStates.FileStateRepository.Upsert` | crates/gds-core/src/db/file_state.rs:22-56 | the row of the path is replaced and no other; it fails exactly when another path owns the id |
| `FileStates.FileStateRepository.Delete` | crates/gds-core/src/db/file_state.rs:180-186 | exactly the row with the id is gone |
| `FileStates.FileStateRepository.GetByPath` | crates/gds-core/src/db/file_state.rs:59-86 | the decoded row of the path, if there is one |
| `FileStates.FileStateRepository.ListByState` | crates/gds-core/src/db/file_state.rs:148-177 | the rows found through the text index are those a look at every decoded state would find, once each, ordered by path |
| `Accounts.CascadeIsExact` | crates/gds-core/src/db/account.rs:84-112 | no single statement of the cascade breaks a foreign key, and the end is the start without exactly the rows that lead to the account |
| `Accounts.WithoutAccountIsGone` | crates/gds-core/src/db/account.rs:84-112 | row by row: gone are the account, its folders, the files in them and the errors of these files; an error without a file stays |
| `Accounts.ParentsGoLast` | crates/gds-core/src/db/account.rs:92-109 | the folders of an account can be deleted if and only if no file state is left in them, and the account if and only if no folder is left |
| `Accounts.Database.DeleteCascade` | crates/gds-core/src/db/account.rs:84-112 | the loop over the folders reaches that end with all keys valid after every statement |
| `RateLimit.RateBound` | crates/gds-daemon/src/scheduler/rate_limit.rs:31-69 | under any interleaving with spurious failures: winning refills are a second apart, the counter never wraps and exceeds the capacity by at most one capacity per thread between adding and capping, and at most capacity times (1 + whole seconds) calls succeed |
| `RateLimit.WindowBound` | crates/gds-daemon/src/scheduler/rate_limit.rs:31-69 | every half-open window of k seconds grants at most capacity times (k + 1): in sequential use wherever it begins, also inside a call, and for any number of threads when none is between reading the clock and capping the counter at its beginning |
| `RateLimit.SoloCallGrantsExactly` | crates/gds-daemon/src/scheduler/rate_limit.rs:31-69 | an undisturbed call succeeds if and only if a token is left or a second has passed, and takes exactly one token |
| `RateLimit.RefusedOnlyWhenEmpty` | crates/gds-daemon/src/scheduler/rate_limit.rs:31-55 | over every interleaving, spurious failures included: a call that ends has taken exactly one token, or it is refused and at that very step no token is left |
| `RateLimit.EveryCallCaps` | crates/gds-daemon/src/scheduler/rate_limit.rs:31-69 | a call looks for a token only right after it has cut the counter to the capacity itself |
| `RateLimit.NoTokenIsLost` | crates/gds-daemon/src/scheduler/rate_limit.rs:31-69 | over every interleaving the counter falls only by a granted call or down to the capacity, and rises only by the capacity that a refill has won |
| `RateLimit.NewBucketServes` | crates/gds-daemon/src/scheduler/rate_limit.rs:20-55 | a new bucket grants its capacity at once, and then nothing while the clock stands still |
| `Scheduler.EveryRunIsSound` | crates/gds-daemon/src/scheduler/mod.rs:239-322 | in every run the queue holds no folder twice, is empty at the select, and every folder that entered is there or has left for an admitted reason |
| `Scheduler.EveryDepartureHasAReason` | crates/gds-daemon/src/scheduler/mod.rs:276-321 | over a whole run, a folder that is no longer in the queue was at its front at some moment and left it by success, pause, a missing or unreadable row, or shutdown |
| `Scheduler.ListensExactly` | crates/gds-daemon/src/scheduler/mod.rs:241-321 | while the queue drains, the scheduler comes back to requests and polls if and only if as many folders leave the queue as it held |
| `Scheduler.ServedInOrder` | crates/gds-daemon/src/scheduler/mod.rs:276-321 | a folder at position k gets past the limiter after exactly k others |
| `Scheduler.TakenRequestAlwaysEnters` | crates/gds-daemon/src/scheduler/mod.rs:250-254 | a request taken from the channel always enters the queue: the duplicate test never finds anything |
| `Scheduler.PollEnqueuesExactly` | crates/gds-daemon/src/scheduler/mod.rs:255-269 | in every run: after a poll at the select exactly the folders that are listed as unpaused are pending, each once, in the order of the listing |
| `Scheduler.TurnMeans` | crates/gds-daemon/src/scheduler/mod.rs:276-321 | a rate-limited folder stays in front, one whose sync failed goes to the back, every other one is out |
| `Scheduler.StopsExactly` | crates/gds-daemon/src/scheduler/mod.rs:244-281 | the scheduler stops if and only if it sees the shutdown at the select or when it takes the next folder, and serves nobody afterwards |
| `Scheduler.Scheduler.Drain` | crates/gds-daemon/src/scheduler/mod.rs:276-321 | the inner loop performs the turns of the state machine, one per outcome |
| `Scheduler.Scheduler.OnRequest` | crates/gds-daemon/src/scheduler/mod.rs:250-254 | taking a request from the channel is the step of the state machine: the oldest request, enqueued unless it is pending |
| `Scheduler.Scheduler.OnPoll` | crates/gds-daemon/src/scheduler/mod.rs:255-269 | a poll adds behind what is pending exactly the folders that are listed as unpaused, and a failed listing changes nothing |
| `Upload.UploadChunksResumable` | crates/gds-core/src/api/client.rs:447-564 | for every pattern of short reads and every server that only takes the next bytes: chunks are consecutive slices with exact ranges, valid by section 14.4 of RFC 9110; every chunk but the last fills the buffer if the reader does; success means that the server holds the content; a failure has a cause outside the loop |
| `Upload.SkipTo` | crates/gds-core/src/api/client.rs:459-480 | skipping consumes exactly the bytes before the resume point, or the stream failed or is too short |
| `Upload.RequestSent` | crates/gds-core/src/api/client.rs:499-529 | one more chunk or commit request keeps the log a sequence of consecutive slices and the server's copy a prefix of the content |

## Left out

- CycleConverges: plain files only. Folders and Workspace documents have no content round trip; they have no place in a cycle that this theorem covers. Nobody else edits files, Drive or the table while the cycle runs.
- FailedCycleResumes: one change per file and no change of the sync root itself; a condition that can be read before the cycle runs, the exact one being that of `FailedCycleResumesExactly`. A file that loses its row to a new file must not be the parent of another new file; `OrphanIsLost` and `OrphanIsForgotten` show that this is needed. Drive and the tree may have changed between the cycles, since the comparison looks at the table and the changes alone.
- CycleCompletes: the conditions on directories and on fresh ids are sufficient, not necessary; the one on deletions is exact (`CycleCompletesExactly`).
- LandsExactly: one change per file and no change of the sync root itself, as for resuming; a file whose row belongs to another file of the same hash and time counts as not landed.
- UploadedForeverExactly: one change per file in every cycle, and Drive answers uploads with the true hash.
- EditSurvivesExactly: no local file has a name that ends in `.gds_tmp` (part of a faithful start); what happens to one that does is `AtomicSparesExactly`.
- WindowBound: with several threads, windows that begin while a thread is between reading the clock and capping the counter; `RateBound` covers them together with everything before.
- NoneLostButOverlooked: handled means the content or the removal of a file; a rename or a move of a file with a row asks for nothing in this sense and is not followed (`MoveIsNotFollowed`). It speaks of changes that were fetched from a log; a server that drops entries of its log is not modelled.
- RateBound: interleavings of atomic accesses in one order seen by all threads; weaker memory orders, the rounding of `f64` and the wrap of the 64-bit clock after five centuries are not modelled.
- UploadChunksResumable: the reader yields a fixed stream; progress callbacks, headers other than the range, tokens and timeouts are left out (a timeout is a lost reply).
- DecodeUndoesEncode: the decoder reads the canonical text the encoder writes, not all of JSON; surrogate escapes are left out.
- ListByState: rows whose text was not written by the encoder are left out.
- EveryRoundConverges: leftovers of a write that failed half-way must have been removed before the next cycle (no file named like a temporary one).
- TimeSurvives: the range limits of the calendar library are left out.
- Upsert: one sync folder at a time; foreign keys from the error table to a row whose id changes are left out, and so is `bulk_upsert`.
- ComputeLocalChanges: I/O errors (which end the cycle before its queue is built), symbolic links, files that vanish during the walk and the call of `safe_local_path` on every entry (which can only abort the walk) are left out.
- ExecuteOne: making the parent directories is one effect; access tokens, MIME types, exports and the notification of a conflict are left out.
- ConflictCopyPath: needs fewer than 2^32 - 2 existing paths, where the counter of the source would overflow; file names that are not UTF-8 are left out.
- SafeLocalPath: the file system is a fixed view of what exists and what it resolves to.
- RunSyncLoop: looking up the account, refreshing the token, the bus signals and the counter of running syncs are left out.
- HTTP, retries and back-off, OAuth, key storage, D-Bus, CLI, tray, preferences and the file watcher: plumbing without harder properties.
- SQLite and migrations as engines: tables are maps with unique keys and foreign keys.
- Limits on concurrent transfers: the source reads them but does not use them.
