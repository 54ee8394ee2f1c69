/** What a completed action does in one step, and what a run of actions leaves in the table. */
module Effects {
  import opened Model
  import opened Paths
  import opened LocalFiles
  import opened Actions
  import opened FileStates
  import opened Executor
  import opened Safety

  // ----- one action as one step -----

  function WithFile(w: World, path: string, content: Content, now: Time): World {
    w.(tree := Tree((w.tree.files - {TempPath(path)})[path := LocalFile(content, now)],
                    w.tree.dirs + Ancestors(Parent(path))))
  }

  function WithRow(w: World, state: FileState): World {
    w.(rows := w.rows[state.relativePath := Stored(state)])
  }

  function WithoutRow(w: World, id: string): World {
    w.(rows := map p | p in w.rows && w.rows[p].id != id :: w.rows[p])
  }

  /** The Drive file an action reads or writes. */
  function DriveIdOf(a: SyncAction, env: Env): string {
    match a.kind
    case NewUpload => env.newId
    case UpdateUpload => DriveIdOfRow(a)
    case DeleteRemote => DriveIdOfRow(a)
    case DeleteLocal => ""
    case _ => if a.driveFile.Some? then a.driveFile.value.id else ""
  }

  function DriveIdOfRow(a: SyncAction): string {
    match a.state
    case Some(s) => (match s.driveFileId case Some(id) => id case None => "")
    case None => ""
  }

  /** The state an action writes into the row of its path. */
  function StateAfter(a: SyncAction, env: Env): FileState
    requires a.kind != DeleteLocal && a.kind != DeleteRemote
    requires a.kind != NewUpload && a.kind != UpdateUpload ==> a.driveFile.Some?
  {
    if a.kind == NewUpload || a.kind == UpdateUpload
    then StateAfterUpload(env, a.relativePath, DriveIdOf(a, env), a.localMd5, a.localModified)
    else StateAfterDownload(env, a.relativePath, a.driveFile.value, a.state,
                            if a.kind == Kind.Conflict then SyncStateKind.Conflict else Synced)
  }

  /** What an action needs from the world to run to its end, besides not being refused on the way. */
  predicate Ready(w: World, a: SyncAction, env: Env) {
    match a.kind
    case NewUpload => a.relativePath in w.tree.files && DriveIdOf(a, env) !in w.drive
    case UpdateUpload =>
      a.relativePath in w.tree.files && a.state.Some? && a.state.value.driveFileId.Some? && DriveIdOf(a, env) in w.drive
    case Conflict => a.relativePath in w.tree.files && a.state.Some? && a.driveFile.Some?
        && DriveIdOf(a, env) in w.drive
    case DeleteRemote => a.state.Some? && a.state.value.driveFileId.Some? && DriveIdOf(a, env) in w.drive
    case DeleteLocal => a.state.Some? && a.relativePath in w.tree.files
    case _ => a.driveFile.Some? && DriveIdOf(a, env) in w.drive
  }

  /** The world after an action, in one step. */
  function After(w: World, a: SyncAction, env: Env): World
    requires Ready(w, a, env)
  {
    var path, id := a.relativePath, DriveIdOf(a, env);
    match a.kind
    case NewUpload => WithRow(w.(drive := w.drive[id := w.tree.files[path].content]), StateAfter(a, env))
    case UpdateUpload => WithRow(w.(drive := w.drive[id := w.tree.files[path].content]), StateAfter(a, env))
    case Conflict =>
      var copied := WithFile(w, CopyPath(w, a, env), w.tree.files[path].content, env.now);
      WithRow(WithFile(copied, path, w.drive[id], env.now),
              StateAfter(a, env))
    case DeleteRemote => WithoutRow(w.(drive := w.drive - {id}), a.state.value.id)
    case DeleteLocal => WithoutRow(w.(tree := w.tree.(files := w.tree.files - {path})), a.state.value.id)
    case _ => WithRow(WithFile(w, path, w.drive[id], env.now), StateAfter(a, env))
  }

  lemma TwoOpsApply(w: World, first: Op, second: Op)
    ensures ApplyOps(w, [first, second]) ==
            match Apply(w, first) case None => None case Some(next) => Apply(next, second)
  {
    hide Apply, ApplyOps;
    assert [first, second] == [first] + [second];
    AppliesInTwoParts(w, [first], [second]);
    OneOp(w, first, w);
    if Apply(w, first).Some? { OneOp(Apply(w, first).value, second, w); }
  }

  /** The row of another path never has the id that is written. */
  ghost predicate IdIsFree(rows: States, state: FileState) {
    forall p :: p in rows && p != state.relativePath ==> rows[p].id != state.id
  }

  lemma UploadIsOneStep(w: World, a: SyncAction, env: Env, end: World)
    requires a.kind == NewUpload || a.kind == UpdateUpload
    requires Execute(w, a, env) == Some(end)
    ensures Ready(w, a, env) && end == After(w, a, env) && IdIsFree(w.rows, StateAfter(a, env))
  {
    hide ApplyOps, Stored;
    var id, content := DriveIdOf(a, env), w.tree.files[a.relativePath].content;
    var row := UpsertRow(StateAfter(a, env));
    if a.kind == NewUpload {
      TwoOpsApply(w, DriveCreate(id, content), row);
      UpsertApplies(Apply(w, DriveCreate(id, content)).value, StateAfter(a, env), end);
    } else {
      TwoOpsApply(w, DriveUpdate(id, content), row);
      UpsertApplies(Apply(w, DriveUpdate(id, content)).value, StateAfter(a, env), end);
    }
  }

  lemma DeleteIsOneStep(w: World, a: SyncAction, env: Env, end: World)
    requires a.kind == DeleteRemote || a.kind == DeleteLocal
    requires Execute(w, a, env) == Some(end)
    ensures Ready(w, a, env) && end == After(w, a, env)
  {
    hide ApplyOps;
    if a.kind == DeleteRemote {
      TwoOpsApply(w, DriveDelete(DriveIdOf(a, env)), DeleteRow(a.state.value.id));
    } else {
      TwoOpsApply(w, RemoveFile(a.relativePath), DeleteRow(a.state.value.id));
    }
  }

  lemma DownloadRuns(w: World, a: SyncAction, env: Env)
    requires a.kind == NewDownload || a.kind == UpdateDownload
    requires Execute(w, a, env).Some?
    ensures Ready(w, a, env)
    ensures Execute(w, a, env) == ApplyOps(w, WriteAtomicOps(a.relativePath, w.drive[DriveIdOf(a, env)], env.now)
                                              + [UpsertRow(StateAfter(a, env))])
  {
    hide WriteAtomicOps, ApplyOps, StateAfterDownload;
  }

  lemma WriteThenRow(w: World, ops: seq<Op>, mid: World, state: FileState, end: World)
    requires ApplyOps(w, ops) == Some(mid) && ApplyOps(w, ops + [UpsertRow(state)]) == Some(end)
    ensures end == WithRow(mid, state) && IdIsFree(mid.rows, state)
  {
    hide ApplyOps, Apply, Stored;
    AppliesInTwoParts(w, ops, [UpsertRow(state)]);
    OneOp(mid, UpsertRow(state), end);
    UpsertApplies(mid, state, end);
  }

  lemma DownloadIsOneStep(w: World, a: SyncAction, env: Env, end: World)
    requires a.kind == NewDownload || a.kind == UpdateDownload
    requires Execute(w, a, env) == Some(end)
    ensures Ready(w, a, env) && end == After(w, a, env) && IdIsFree(w.rows, StateAfter(a, env))
  {
    hide ApplyOps, Apply, PlanOf, WriteAtomicOps, StateAfter, Stored;
    DownloadRuns(w, a, env);
    var content := w.drive[DriveIdOf(a, env)];
    var ops := WriteAtomicOps(a.relativePath, content, env.now);
    AppliesInTwoParts(w, ops, [UpsertRow(StateAfter(a, env))]);
    var mid := ApplyOps(w, ops).value;
    AtomicCompletes(w, a.relativePath, content, env.now, mid);
    WriteThenRow(w, ops, mid, StateAfter(a, env), end);
  }

  lemma ConflictIsOneStep(w: World, a: SyncAction, env: Env, end: World)
    requires a.kind == Kind.Conflict
    requires Execute(w, a, env) == Some(end)
    ensures Ready(w, a, env) && end == After(w, a, env) && IdIsFree(w.rows, StateAfter(a, env))
  {
    hide ApplyOps, Apply, PlanOf, ConflictPlan, WriteAtomicOps, StateAfterDownload, Stored, CopyPath;
    ConflictRuns(w, a, env);
    ConflictOps(w, a, env);
    var path, copy := a.relativePath, CopyPath(w, a, env);
    var bytes, server := w.tree.files[path].content, w.drive[a.driveFile.value.id];
    var copyOps, serverOps := WriteAtomicOps(copy, bytes, env.now), WriteAtomicOps(path, server, env.now);
    AppliesInTwoParts(w, copyOps + serverOps, [UpsertRow(StateAfter(a, env))]);
    AppliesInTwoParts(w, copyOps, serverOps);
    var w1 := ApplyOps(w, copyOps).value;
    AtomicCompletes(w, copy, bytes, env.now, w1);
    var w2 := ApplyOps(w1, serverOps).value;
    AtomicCompletes(w1, path, server, env.now, w2);
    WriteThenRow(w, copyOps + serverOps, w2, StateAfter(a, env), end);
  }

  /** An action that runs through all its effects is one step of the world. */
  lemma ExecuteIsOneStep(w: World, a: SyncAction, env: Env, end: World)
    requires Execute(w, a, env) == Some(end)
    ensures Ready(w, a, env) && end == After(w, a, env)
    ensures a.kind != DeleteLocal && a.kind != DeleteRemote ==> IdIsFree(w.rows, StateAfter(a, env))
  {
    hide Execute, After, StateAfter, Ready;
    match a.kind
    case NewUpload => UploadIsOneStep(w, a, env, end);
    case UpdateUpload => UploadIsOneStep(w, a, env, end);
    case NewDownload => DownloadIsOneStep(w, a, env, end);
    case UpdateDownload => DownloadIsOneStep(w, a, env, end);
    case Conflict => ConflictIsOneStep(w, a, env, end);
    case DeleteRemote => DeleteIsOneStep(w, a, env, end);
    case DeleteLocal => DeleteIsOneStep(w, a, env, end);
  }

  // ----- the rows after a run -----

  function RowAt(rows: States, path: string): Option<FileState> {
    if path in rows then Some(rows[path]) else None
  }

  predicate Deletes(a: SyncAction) { a.kind == DeleteLocal || a.kind == DeleteRemote }

  /** The row an action leaves at its path. */
  function NewRow(a: SyncAction, env: Env): Option<FileState>
    requires Deletes(a) || a.kind == NewUpload || a.kind == UpdateUpload || a.driveFile.Some?
  {
    if Deletes(a) then None else Some(Stored(StateAfter(a, env)))
  }

  /** The row of the action's path is the one the action leaves there. */
  predicate RowDone(rows: States, a: SyncAction, env: Env) {
    && (Deletes(a) || a.kind == NewUpload || a.kind == UpdateUpload || a.driveFile.Some?)
    && (a.kind == UpdateUpload ==> a.state.Some? && a.state.value.driveFileId.Some?)
    && RowAt(rows, a.relativePath) == NewRow(a, env)
  }

  ghost predicate UniqueIds(rows: States) {
    forall p, q :: p in rows && q in rows && rows[p].id == rows[q].id ==> p == q
  }

  /** Deletions name the row of their path; downloads and conflicts carry a Drive file. */
  ghost predicate Fits(rows: States, a: SyncAction) {
    && (Deletes(a) ==> a.relativePath in rows && a.state == Some(rows[a.relativePath]))
    && (Deletes(a) || a.kind == NewUpload || a.kind == UpdateUpload || a.driveFile.Some?)
  }

  lemma RowsAfterOne(w: World, a: SyncAction, env: Env, end: World)
    requires Execute(w, a, env) == Some(end) && UniqueIds(w.rows) && Fits(w.rows, a)
    ensures UniqueIds(end.rows)
    ensures RowDone(end.rows, a, env)
    ensures forall p :: p != a.relativePath ==> RowAt(end.rows, p) == RowAt(w.rows, p)
  {
    hide Execute, CopyPath, ApplyOps, StateAfter, PlanOf;
    ExecuteIsOneStep(w, a, env, end);
    if !Deletes(a) { WrittenRow(w, a, env, end); }
  }

  lemma WrittenRow(w: World, a: SyncAction, env: Env, end: World)
    requires Ready(w, a, env) && end == After(w, a, env) && !Deletes(a) && IdIsFree(w.rows, StateAfter(a, env))
        && UniqueIds(w.rows)
    ensures StateAfter(a, env).relativePath == a.relativePath
    ensures end.rows == w.rows[a.relativePath := Stored(StateAfter(a, env))] && UniqueIds(end.rows)
  {
    hide CopyPath;
  }

  /** After a run of actions for distinct paths every acted path has the row of its action and every other
      path the row it had. */
  lemma {:induction false} RowsArePointwise(w: World, actions: seq<SyncAction>, envs: seq<Env>, end: World)
    requires |actions| == |envs| && ExecuteAll(w, actions, envs) == Some(end)
    requires UniqueIds(w.rows) && DistinctPaths(actions)
    requires forall i :: 0 <= i < |actions| ==> Fits(w.rows, actions[i])
    ensures UniqueIds(end.rows)
    ensures forall i :: 0 <= i < |actions| ==> RowDone(end.rows, actions[i], envs[i])
    ensures forall p :: (forall i :: 0 <= i < |actions| ==> actions[i].relativePath != p) ==>
        RowAt(end.rows, p) == RowAt(w.rows, p)
    decreases |actions|
  {
    hide Execute, NewRow;
    if actions != [] {
      var next := Execute(w, actions[0], envs[0]).value;
      var rest := actions[1..];
      RowsAfterOne(w, actions[0], envs[0], next);
      forall i | 0 <= i < |rest| ensures Fits(next.rows, rest[i]) {
        assert rest[i] == actions[i + 1];
        assert RowAt(next.rows, rest[i].relativePath) == RowAt(w.rows, rest[i].relativePath);
      }
      RowsArePointwise(next, rest, envs[1..], end);
      forall i | 0 <= i < |actions| ensures RowDone(end.rows, actions[i], envs[i]) {
        if i > 0 { assert RowDone(end.rows, rest[i - 1], envs[1..][i - 1]); }
      }
    }
  }

  /** What the row of an action that wrote one says, field by field. */
  lemma WhatIsRecorded(w: World, a: SyncAction, env: Env, end: World)
    requires Execute(w, a, env) == Some(end) && UniqueIds(w.rows) && Fits(w.rows, a) && !Deletes(a)
    ensures a.relativePath in end.rows
    ensures var row := end.rows[a.relativePath];
      && row.relativePath == a.relativePath && row.lastSyncedAt == StoredSeconds(Some(env.now))
      && (a.kind == NewUpload || a.kind == UpdateUpload ==>
            && row.id == env.uuid && row.driveFileId == Some(DriveIdOf(a, env))
            && row.driveMd5 == env.reply.md5Checksum && row.driveModified == StoredTime(env.reply.modified)
            && row.localMd5 == a.localMd5 && row.localModified == StoredTime(a.localModified)
            && row.syncState == SyncState(Synced, None))
      && (a.kind != NewUpload && a.kind != UpdateUpload ==>
            var file := a.driveFile.value;
            && row.id == (match a.state case Some(s) => s.id case None => env.uuid)
            && row.driveFileId == Some(file.id) && row.driveMd5 == row.localMd5 == file.md5Checksum
            && row.driveModified == row.localModified == StoredTime(file.modified)
            && row.syncState == SyncState(if a.kind == Kind.Conflict then SyncStateKind.Conflict else Synced, None))
  {
    hide Execute, StoredTime, StoredSeconds;
    RowsAfterOne(w, a, env, end);
    assert RowAt(end.rows, a.relativePath) == NewRow(a, env);
  }

  // ----- the rows after a failure -----

  ghost predicate NoRowOps(ops: seq<Op>) {
    forall i :: 0 <= i < |ops| ==> !ops[i].UpsertRow? && !ops[i].DeleteRow?
  }

  lemma {:induction false} RowsUntilLast(w: World, ops: seq<Op>, end: World)
    requires MayStop(w, ops, end) && NoRowOps(ops)
    ensures end.rows == w.rows
    decreases |ops|
  {
    if ops != [] && Apply(w, ops[0]).Some? && MayStop(Apply(w, ops[0]).value, ops[1..], end) {
      RowsUntilLast(Apply(w, ops[0]).value, ops[1..], end);
    }
  }

  lemma RowOpIsLast(w: World, a: SyncAction, env: Env)
    ensures var plan := PlanOf(w, a, env);
      if plan.ok then plan.ops != [] && NoRowOps(plan.ops[..|plan.ops| - 1]) else NoRowOps(plan.ops)
  {
    hide CopyPath, TempPath, Parent, StateAfterUpload, StateAfterDownload;
  }

  /** The table changes last: an action that stops early leaves the rows as they were, or has completed. */
  lemma StoppedRows(w: World, a: SyncAction, env: Env, end: World)
    requires MayStop(w, PlanOf(w, a, env).ops, end)
    ensures end.rows == w.rows || Execute(w, a, env) == Some(end)
  {
    hide MayStop, ApplyOps, Apply, PlanOf;
    var plan := PlanOf(w, a, env);
    RowOpIsLast(w, a, env);
    if !plan.ok {
      RowsUntilLast(w, plan.ops, end);
    } else {
      var n := |plan.ops| - 1;
      var before, last := plan.ops[..n], plan.ops[n];
      assert plan.ops == before + [last];
      StopsInOnePart(w, before, [last], end);
      if MayStop(w, before, end) {
        RowsUntilLast(w, before, end);
      } else {
        StoppedAtLast(w, before, last, end);
      }
    }
  }

  lemma StoppedAtLast(w: World, before: seq<Op>, last: Op, end: World)
    requires NoRowOps(before) && ApplyOps(w, before).Some? && MayStop(ApplyOps(w, before).value, [last], end)
    ensures end.rows == w.rows || ApplyOps(w, before + [last]) == Some(end)
  {
    hide MayStop, ApplyOps, Apply;
    var mid := ApplyOps(w, before).value;
    MayRunToTheEnd(w, before, mid);
    RowsUntilLast(w, before, mid);
    OneOp(mid, last, end);
    AppliesInTwoParts(w, before, [last]);
    if TornWrite(mid, last, end) { TornRows(mid, last, end); }
  }

  lemma TornRows(w: World, op: Op, end: World)
    requires TornWrite(w, op, end)
    ensures end.rows == w.rows
  {
  }
}
