/** What a cycle leaves for the next one, and the deletions that it can never finish. */
module Losses {
  import opened Model
  import opened Paths
  import opened LocalFiles
  import opened Actions
  import opened FileStates
  import opened LocalDiff
  import opened RemoteDiff
  import opened Merge
  import opened Executor
  import opened Safety
  import opened Effects
  import opened Convergence
  import opened Resume
  import opened Cycles

  // ----- what the next cycle sees -----

  /** A download, alone or in a conflict, stores Drive's time as the local time but leaves the file with the time of the
      write: the next walk takes the file for edited exactly when the two times differ. */
  lemma DownloadLooksEdited(w: World, a: SyncAction, env: Env, end: World)
    requires Stepped(w, a, env, end) && Fetches(a) && !Ignored(a.relativePath)
    requires a.driveFile.Some? && a.driveFile.value.md5Checksum == Some(Md5(w.drive[DriveIdOf(a, env)]))
    ensures var again := LocalActionAt(end.tree, end.rows, a.relativePath);
      && (again == None <==> StoredTime(a.driveFile.value.modified) == Some(env.now))
      && (again.Some? ==> again.value.kind == UpdateUpload)
  {
    hide CopyPath, StoredTime;
    assert FileAt(end, a.relativePath) == NewFile(w, a, env, a.relativePath);
    assert RowAt(end.rows, a.relativePath) == NewRow(a, env);
  }

  /** After an upload both comparisons find nothing: the walk exactly when the table can keep the file's time, and
      a change that reports what Drive answered exactly when the table can keep the time of the answer. */
  lemma UploadLooksSettled(w: World, a: SyncAction, env: Env, end: World)
    requires Stepped(w, a, env, end) && Uploads(a) && !Ignored(a.relativePath)
    requires a.localMd5 == Some(Md5(w.tree.files[a.relativePath].content))
    requires a.localModified == Some(w.tree.files[a.relativePath].modified)
    ensures LocalActionAt(end.tree, end.rows, a.relativePath) == None <==>
        StoredTime(a.localModified) == a.localModified
    ensures a.relativePath in end.rows
    ensures var row := end.rows[a.relativePath];
      && (RemoteChanged(row, env.reply.md5Checksum, env.reply.modified) <==>
          StoredTime(env.reply.modified) != env.reply.modified)
      && row.syncState == SyncState(Synced, None) && row.driveFileId == Some(DriveIdOf(a, env))
  {
    hide CopyPath, StoredTime;
    assert FileAt(end, a.relativePath) == NewFile(w, a, env, a.relativePath);
    assert RowAt(end.rows, a.relativePath) == NewRow(a, env);
  }

  // ----- a file deleted on both sides -----

  const COPY_MARK: string := ".conflict-"

  lemma MarkInside(head: string, tail: string)
    ensures Contains(head + COPY_MARK + tail, COPY_MARK)
  {
    var s := head + COPY_MARK + tail;
    assert s[|head|..|head| + |COPY_MARK|] == COPY_MARK;
    assert ContainsAt(s, COPY_MARK, |head|);
  }

  lemma CopyHasMark(path: string, stamp: string, n: nat)
    ensures Contains(ConflictPath(path, stamp, n), COPY_MARK)
  {
    hide Contains;
    var head := path[..NameAt(path)] + FileName(path);
    var tail := stamp + (if n <= 1 then "" else "-" + Decimal(n)) + DotExtension(FileName(path));
    var copy := ConflictPath(path, stamp, n);
    assert copy == head + COPY_MARK + tail;
    MarkInside(head, tail);
  }

  /** A name that no action creates on the way: neither a temporary file nor a conflict copy. */
  predicate OrdinaryName(path: string) { !IsTmp(path) && !Contains(path, COPY_MARK) }

  predicate Creates(op: Op, path: string) {
    (op.WriteFile? && op.path == path) || (op.Rename? && op.target == path)
  }

  lemma {:induction false} NothingCreates(w: World, ops: seq<Op>, end: World, path: string)
    requires MayStop(w, ops, end) && path !in w.tree.files
    requires forall i :: 0 <= i < |ops| ==> !Creates(ops[i], path)
    ensures path !in end.tree.files
    decreases |ops|
  {
    if ops != [] && Apply(w, ops[0]).Some? && MayStop(Apply(w, ops[0]).value, ops[1..], end) {
      NothingCreates(Apply(w, ops[0]).value, ops[1..], end, path);
    }
  }

  /** An action creates no ordinary file but its own, and a deletion creates none at all. */
  lemma ActionCreatesNoOther(w: World, a: SyncAction, env: Env, end: World, path: string)
    requires OrdinaryName(path) && path !in w.tree.files && (a.relativePath != path || Deletes(a))
    requires MayStop(w, PlanOf(w, a, env).ops, end)
    ensures path !in end.tree.files
  {
    hide MayStop, PlanOf, CopyPath, IsTmp, TempPath, Contains;
    TempPathIsTmp(a.relativePath);
    TempPathIsTmp(CopyPath(w, a, env));
    CopyIsMarked(w, a, env);
    WhatIsCreated(w, a, env, path);
    NothingCreates(w, PlanOf(w, a, env).ops, end, path);
  }

  /** The paths at which an action may create a file. */
  lemma WhatIsCreated(w: World, a: SyncAction, env: Env, path: string)
    requires path != TempPath(a.relativePath) && path != CopyPath(w, a, env) && path != TempPath(CopyPath(w, a, env))
    requires path != a.relativePath || Deletes(a)
    ensures forall i :: 0 <= i < |PlanOf(w, a, env).ops| ==> !Creates(PlanOf(w, a, env).ops[i], path)
  {
    hide CopyPath, TempPath, StateAfterUpload, StateAfterDownload, Parent;
  }

  lemma CopyIsMarked(w: World, a: SyncAction, env: Env)
    ensures Contains(CopyPath(w, a, env), COPY_MARK)
  {
    CopyHasMark(a.relativePath, env.stamp, FirstFree(a.relativePath, env.stamp, w.tree.files.Keys + w.tree.dirs, 1));
  }

  /** While a file is missing, runs of actions that do not create it leave it missing, and its deletion never runs. */
  lemma {:induction false} StaysMissing(w: World, actions: seq<SyncAction>, envs: seq<Env>, end: World, path: string)
    requires |actions| == |envs| && ExecuteAll(w, actions, envs) == Some(end)
    requires OrdinaryName(path) && path !in w.tree.files
    requires forall i :: 0 <= i < |actions| && actions[i].relativePath == path ==> actions[i].kind == DeleteLocal
    ensures path !in end.tree.files
    ensures forall i :: 0 <= i < |actions| ==> actions[i].relativePath != path
    decreases |actions|
  {
    hide Execute, MayStop, OrdinaryName;
    if actions != [] {
      var next := Execute(w, actions[0], envs[0]).value;
      if actions[0].relativePath == path { DeletionNeedsTheFile(w, actions[0], envs[0]); }
      RunsToItsEnd(w, actions[0], envs[0], next);
      ActionCreatesNoOther(w, actions[0], envs[0], next, path);
      StaysMissing(next, actions[1..], envs[1..], end, path);
      assert forall i :: 0 < i < |actions| ==> actions[i] == actions[1..][i - 1];
    }
  }

  lemma RunsToItsEnd(w: World, a: SyncAction, env: Env, next: World)
    requires Execute(w, a, env) == Some(next)
    ensures MayStop(w, PlanOf(w, a, env).ops, next)
  {
    hide MayStop, PlanOf, ApplyOps;
    MayRunToTheEnd(w, PlanOf(w, a, env).ops, next);
  }

  lemma DeletionNeedsTheFile(w: World, a: SyncAction, env: Env)
    requires a.kind == DeleteLocal && Execute(w, a, env).Some?
    ensures a.relativePath in w.tree.files
  {
    hide Execute, After;
    ExecuteIsOneStep(w, a, env, Execute(w, a, env).value);
  }

  /** The row's file is gone locally, and the fetched changes say that it is gone on Drive. */
  ghost predicate DeletedOnBothSides(c: Cycle, path: string) {
    && path in c.ctx.rows && path !in c.world.tree.files && OrdinaryName(path)
    && exists ch :: ch in c.changes && ch.removed == Some(true) && c.ctx.rows[path].driveFileId == Some(ch.fileId)
  }

  lemma QueuedDeletion(c: Cycle, path: string)
    requires Computed(c) && IndexFull(c.ctx) && DistinctPaths(c.remote) && DeletedOnBothSides(c, path)
    ensures exists a :: a in c.queue && a.kind == DeleteLocal && a.relativePath == path
    ensures forall a :: a in c.queue && a.relativePath == path ==> a.kind == DeleteLocal
  {
    hide MergedAt, RemoteActions, KnownPaths, LocalActionAt, LocalExactly;
    var ch :| ch in c.changes && ch.removed == Some(true) && c.ctx.rows[path].driveFileId == Some(ch.fileId);
    KnownFileEmits(c.ctx, KnownPaths(c.ctx), c.changes, ch);
    var r := DeleteLocalOf(path, c.ctx.rows[path]);
    assert ActionOf(c.ctx, KnownPaths(c.ctx), ch) == Some(r);
    assert DistinctPaths(c.local) by { LocalIsDistinct(c); }
    MergeIsPointwise(c.local, c.remote, path);
    assert MergedAt(c.local, c.remote, path) == Some(r);
    assert r in c.queue;
  }

  lemma LocalIsDistinct(c: Cycle)
    requires Computed(c)
    ensures DistinctPaths(c.local)
  {
  }

  /** A file deleted on both sides: its row keeps every cycle from running to its end, and a cycle that fails
      leaves row and file as they were, so the next one fails as well. */
  lemma DeletedOnBothSidesNeverCompletes(at: Attempt, end: World, path: string)
    requires Computed(at.cycle) && IndexFull(at.cycle.ctx) && UniqueIds(at.cycle.ctx.rows)
        && DistinctPaths(at.cycle.remote)
    requires forall ch :: ch in at.cycle.changes && Live(ch) ==> ch.file.value.id == ch.fileId
    requires DeletedOnBothSides(at.cycle, path) && EndsIn(at, end)
    ensures at.ended != Completed
    ensures path !in end.tree.files && RowAt(end.rows, path) == RowAt(at.cycle.ctx.rows, path)
  {
    hide Computed, IndexFull, OrdinaryName, ExecuteAll, MayStop, PlanOf, RemoteActions, Execute;
    var c := at.cycle;
    QueuedDeletion(c, path);
    var run, runEnvs := c.queue[..at.ran], at.envs[..at.ran];
    var reached := ExecuteAll(c.world, run, runEnvs).value;
    assert forall i :: 0 <= i < |run| ==> run[i] == c.queue[i] && run[i] in c.queue;
    StaysMissing(c.world, run, runEnvs, reached, path);
    PrefixFits(c, at.ran);
    RowsArePointwise(c.world, run, runEnvs, reached);
    assert RowAt(reached.rows, path) == RowAt(c.world.rows, path);
    var a :| a in c.queue && a.relativePath == path;
    var j :| 0 <= j < |c.queue| && c.queue[j] == a;
    if at.ended == Failed {
      var failed := c.queue[at.ran];
      assert failed in c.queue;
      ActionCreatesNoOther(reached, failed, at.envs[at.ran], end, path);
      FailedKeepsRow(c, run, reached, failed, at.envs[at.ran], end, path);
    }
  }

  lemma PrefixFits(c: Cycle, k: nat)
    requires Computed(c) && IndexFull(c.ctx) && DistinctPaths(c.remote) && k <= |c.queue|
    requires forall ch :: ch in c.changes && Live(ch) ==> ch.file.value.id == ch.fileId
    ensures c.ctx.rows == c.world.rows && DistinctPaths(c.queue) && DistinctPaths(c.queue[..k])
    ensures forall i :: 0 <= i < |c.queue| ==> Fits(c.ctx.rows, c.queue[i])
    ensures forall i :: 0 <= i < k ==> Fits(c.ctx.rows, c.queue[..k][i])
  {
    hide MergedAt, RemoteActions, LocalExactly;
    forall i | 0 <= i < |c.queue| ensures Fits(c.ctx.rows, c.queue[i]) {
      ShapeOfQueue(c, c.queue[i]);
    }
  }

  lemma FailedKeepsRow(c: Cycle, run: seq<SyncAction>, reached: World, failed: SyncAction, env: Env, end: World,
                       path: string)
    requires MayStop(reached, PlanOf(reached, failed, env).ops, end)
    requires UniqueIds(reached.rows) && path !in reached.tree.files
        && (failed.relativePath == path ==> failed.kind == DeleteLocal)
    requires RowAt(reached.rows, failed.relativePath) == RowAt(c.ctx.rows, failed.relativePath)
        && Fits(c.ctx.rows, failed)
    ensures RowAt(end.rows, path) == RowAt(reached.rows, path)
  {
    hide MayStop, PlanOf, Execute, NewRow;
    StoppedRows(reached, failed, env, end);
    if Execute(reached, failed, env) == Some(end) {
      if failed.relativePath == path { DeletionNeedsTheFile(reached, failed, env); }
      RowsAfterOne(reached, failed, env, end);
    }
  }

  /** Every copy that a run makes carries the mark of copies. */
  lemma {:induction false} CopiesAreMarked(w: World, actions: seq<SyncAction>, envs: seq<Env>)
    requires |actions| <= |envs|
    ensures forall q :: q in CopiesMade(w, actions, envs) ==> Contains(q, COPY_MARK)
    decreases |actions|
  {
    hide Execute, CopyPath, Contains;
    if actions != [] {
      CopyIsMarked(w, actions[0], envs[0]);
      var next := Execute(w, actions[0], envs[0]);
      if next.Some? { CopiesAreMarked(next.value, actions[1..], envs[1..]); }
    }
  }

  /** A deletion of a file that is there is never refused. */
  lemma DeletionGoesThrough(w: World, a: SyncAction, env: Env)
    requires a.kind == DeleteLocal && a.state.Some? && a.relativePath in w.tree.files
    ensures Execute(w, a, env).Some?
  {
    hide ApplyOps;
    TwoOpsApply(w, RemoveFile(a.relativePath), DeleteRow(a.state.value.id));
  }

  /** A queued deletion goes through exactly when its file was there at the start of the cycle, or a conflict
      copy made before it has its name; the latter never happens to an ordinary name. */
  lemma {:induction false} DeletionRunsExactly(c: Cycle, envs: seq<Env>, j: nat, mid: World)
    requires Faithful(c) && j < |c.queue| == |envs| && c.queue[j].kind == DeleteLocal
    requires forall i :: 0 <= i < |envs| ==> EnvOk(c.ctx, envs[i])
    requires ExecuteAll(c.world, c.queue[..j], envs[..j]) == Some(mid)
    ensures var path, copies := c.queue[j].relativePath, CopiesMade(c.world, c.queue[..j], envs[..j]);
      && (Execute(mid, c.queue[j], envs[j]).Some? <==> path in c.world.tree.files || path in copies)
      && (OrdinaryName(path) ==> path !in copies)
  {
    hide Faithful, EnvOk, ExecuteAll, CopiesMade, Execute, IsTmp, Settled, DriveKept, OwnFile, Contains;
    var a := c.queue[j];
    var rest := c.queue[j..];
    InvAfter(c, envs, j, mid);
    CopiesAreMarked(c.world, c.queue[..j], envs[..j]);
    assert rest[0] == a && Convergence.Pending(rest, a.relativePath);
    if a.relativePath in mid.tree.files { DeletionGoesThrough(mid, a, envs[j]); }
    if Execute(mid, a, envs[j]).Some? { DeletionNeedsTheFile(mid, a, envs[j]); }
  }

  /** What every cycle of a folder is, whatever happened to the folder before. */
  ghost predicate WellRead(c: Cycle) {
    && Computed(c) && IndexFull(c.ctx) && UniqueIds(c.ctx.rows) && DistinctPaths(c.remote)
    && forall ch :: ch in c.changes && Live(ch) ==> ch.file.value.id == ch.fileId
  }

  /** Nothing but the cycles themselves changes the folder, and the log of changes only grows. */
  ghost predicate Undisturbed(turns: seq<Turn>) {
    forall k :: 0 <= k < |turns| - 1 ==>
        EndsIn(turns[k].at, turns[k + 1].at.cycle.world) && turns[k].to <= turns[k + 1].to
  }

  lemma DeletedInTurn(log: seq<DriveChange>, t: Turn, i: nat, path: string)
    requires TurnOk(log, t) && t.from <= i < t.to && log[i].removed == Some(true)
    requires path in t.at.cycle.ctx.rows && t.at.cycle.ctx.rows[path].driveFileId == Some(log[i].fileId)
    requires path !in t.at.cycle.world.tree.files && OrdinaryName(path)
    ensures DeletedOnBothSides(t.at.cycle, path)
  {
    hide Computed, EndsIn, OrdinaryName;
    TurnGoesOn(log, t);
    assert t.at.cycle.changes[i - t.from] in t.at.cycle.changes;
  }

  /** As long as nobody else touches the folder and no pause intervenes, a file deleted on both sides makes
      this cycle and every later one fail, and the page token never moves again. */
  lemma {:induction false} BlockedForever(log: seq<DriveChange>, turns: seq<Turn>, first: nat, last: nat, i: nat,
                                          path: string)
    requires Life(log, turns, first, last) && Undisturbed(turns) && turns != []
    requires forall t :: t in turns ==> t.at.ended != Paused && WellRead(t.at.cycle)
    requires first <= i < turns[0].to && turns[0].to <= |log| && log[i].removed == Some(true) && OrdinaryName(path)
    requires var c := turns[0].at.cycle;
      && path in c.ctx.rows && c.ctx.rows[path].driveFileId == Some(log[i].fileId) && path !in c.world.tree.files
    ensures last == first && forall t :: t in turns ==> t.at.ended == Failed
    decreases |turns|
  {
    hide OrdinaryName, EndsIn, WellRead, TurnOk;
    var t := turns[0];
    assert t in turns;
    assert forall u :: u in turns <==> u == t || u in turns[1..];
    DeletedInTurn(log, t, i, path);
    if |turns| == 1 {
      assert turns[1..] == [];
      var end := SomeEnd(log, t);
      FailsAgain(t.at, end, path);
    } else {
      var next := turns[1];
      assert turns[1..][0] == next && next in turns;
      FailsAgain(t.at, next.at.cycle.world, path);
      assert TurnOk(log, next);
      TurnReads(log, next);
      assert Undisturbed(turns[1..]) by { RestUndisturbed(turns); }
      BlockedForever(log, turns[1..], first, last, i, path);
    }
  }

  lemma RestUndisturbed(turns: seq<Turn>)
    requires Undisturbed(turns) && turns != []
    ensures Undisturbed(turns[1..])
  {
    hide EndsIn;
    var rest := turns[1..];
    forall k | 0 <= k < |rest| - 1
      ensures EndsIn(rest[k].at, rest[k + 1].at.cycle.world) && rest[k].to <= rest[k + 1].to
    {
      assert rest[k] == turns[k + 1] && rest[k + 1] == turns[k + 2];
    }
  }

  lemma SomeEnd(log: seq<DriveChange>, t: Turn) returns (end: World)
    requires TurnOk(log, t)
    ensures EndsIn(t.at, end)
  {
    hide EndsIn, Computed;
    end :| EndsIn(t.at, end);
  }

  lemma TurnReads(log: seq<DriveChange>, t: Turn)
    requires TurnOk(log, t)
    ensures t.at.cycle.ctx.rows == t.at.cycle.world.rows && t.to <= |log|
  {
    hide EndsIn;
  }

  lemma FailsAgain(at: Attempt, end: World, path: string)
    requires WellRead(at.cycle) && at.ended != Paused && DeletedOnBothSides(at.cycle, path) && EndsIn(at, end)
    ensures at.ended == Failed && path !in end.tree.files && RowAt(end.rows, path) == RowAt(at.cycle.ctx.rows, path)
    ensures path in end.rows && end.rows[path] == at.cycle.ctx.rows[path]
  {
    hide Computed, IndexFull, EndsIn, OrdinaryName;
    DeletedOnBothSidesNeverCompletes(at, end, path);
  }
}
