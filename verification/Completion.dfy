/** When a cycle in which nothing fails runs to its end. */
module Completion {
  import opened Model
  import opened Paths
  import opened LocalFiles
  import opened Actions
  import opened FileStates
  import opened LocalDiff
  import opened RemoteDiff
  import opened Merge
  import opened Executor
  import opened Safety
  import opened Effects
  import opened Convergence
  import opened Resume
  import opened Losses
  import opened Edits
  import opened Iteration

  // ----- one action -----

  lemma ThreeOps(w: World, ops: seq<Op>, w1: World, w2: World, end: World)
    requires |ops| == 3 && Apply(w, ops[0]) == Some(w1) && Apply(w1, ops[1]) == Some(w2)
        && Apply(w2, ops[2]) == Some(end)
    ensures ApplyOps(w, ops) == Some(end)
  {
    hide Apply, ApplyOps;
    assert ops == [ops[0], ops[1]] + [ops[2]];
    TwoOpsApply(w, ops[0], ops[1]);
    AppliesInTwoParts(w, [ops[0], ops[1]], [ops[2]]);
    OneOp(w2, ops[2], end);
  }

  /** Nothing is in the way of an atomic write: no file where a directory is needed, no directory at the target or at
      the temporary file. */
  ghost predicate CanWrite(w: World, path: string) {
    var dirs := w.tree.dirs + Ancestors(Parent(path));
    && (forall d :: d in Ancestors(Parent(path)) ==> d !in w.tree.files)
    && path !in dirs && TempPath(path) !in dirs
  }

  lemma WriteGoesThrough(w: World, path: string, content: Content, now: Time)
    requires CanWrite(w, path)
    ensures ApplyOps(w, WriteAtomicOps(path, content, now)) == Some(WithFile(w, path, content, now))
  {
    hide ApplyOps, TempPath, Parent, Ancestors;
    TempBeside(path);
    ParentIsAncestor(Parent(path));
    var ops := WriteAtomicOps(path, content, now);
    var w1 := Apply(w, ops[0]).value;
    var w2 := Apply(w1, ops[1]).value;
    ThreeOps(w, ops, w1, w2, Apply(w2, ops[2]).value);
    AtomicCompletes(w, path, content, now, Apply(w2, ops[2]).value);
  }

  lemma TempBeside(path: string)
    ensures Parent(TempPath(path)) == Parent(path)
  {
    SameParent(path, TempName(FileName(path)));
  }

  lemma ParentIsAncestor(dir: string)
    ensures dir == "" || dir in Ancestors(dir)
  {
  }

  lemma RowGoesThrough(w: World, ops: seq<Op>, mid: World, state: FileState)
    requires ApplyOps(w, ops) == Some(mid) && IdIsFree(mid.rows, state)
    ensures ApplyOps(w, ops + [UpsertRow(state)]) == Some(WithRow(mid, state))
  {
    hide ApplyOps, Stored;
    AppliesInTwoParts(w, ops, [UpsertRow(state)]);
    OneOp(mid, UpsertRow(state), mid);
  }

  lemma SameRows(w: World, path: string, content: Content, now: Time)
    ensures WithFile(w, path, content, now).rows == w.rows && WithFile(w, path, content, now).drive == w.drive
  {
  }

  lemma DownloadGoesThrough(w: World, a: SyncAction, env: Env)
    requires Ready(w, a, env) && (a.kind == NewDownload || a.kind == UpdateDownload)
    requires CanWrite(w, a.relativePath) && IdIsFree(w.rows, StateAfter(a, env))
    ensures Execute(w, a, env) == Some(After(w, a, env))
  {
    hide ApplyOps, Apply, WriteAtomicOps, WithFile, IdIsFree, Stored, StateAfterDownload, CanWrite;
    var content := w.drive[a.driveFile.value.id];
    WriteGoesThrough(w, a.relativePath, content, env.now);
    SameRows(w, a.relativePath, content, env.now);
    RowGoesThrough(w, WriteAtomicOps(a.relativePath, content, env.now), WithFile(w, a.relativePath, content, env.now),
                   StateAfter(a, env));
  }

  /** The world of a conflict after its copy is written. */
  function Copied(w: World, a: SyncAction, env: Env): World
    requires a.relativePath in w.tree.files
  {
    WithFile(w, CopyPath(w, a, env), w.tree.files[a.relativePath].content, env.now)
  }

  lemma ConflictGoesThrough(w: World, a: SyncAction, env: Env)
    requires Ready(w, a, env) && a.kind == Kind.Conflict && IdIsFree(w.rows, StateAfter(a, env))
    requires CanWrite(w, CopyPath(w, a, env)) && CanWrite(Copied(w, a, env), a.relativePath)
    ensures Execute(w, a, env) == Some(After(w, a, env))
  {
    hide ApplyOps, Apply, WriteAtomicOps, CopyPath, WithFile, IdIsFree, Stored, StateAfterDownload, CanWrite;
    var path, copy := a.relativePath, CopyPath(w, a, env);
    var bytes, server := w.tree.files[path].content, w.drive[a.driveFile.value.id];
    var copyOps, serverOps := WriteAtomicOps(copy, bytes, env.now), WriteAtomicOps(path, server, env.now);
    WriteGoesThrough(w, copy, bytes, env.now);
    var w1 := WithFile(w, copy, bytes, env.now);
    WriteGoesThrough(w1, path, server, env.now);
    AppliesInTwoParts(w, copyOps, serverOps);
    SameRows(w, copy, bytes, env.now);
    SameRows(w1, path, server, env.now);
    RowGoesThrough(w, copyOps + serverOps, WithFile(w1, path, server, env.now), StateAfter(a, env));
    ConflictOps(w, a, env);
  }

  lemma UploadGoesThrough(w: World, a: SyncAction, env: Env)
    requires Ready(w, a, env) && Uploads(a) && IdIsFree(w.rows, StateAfter(a, env))
    ensures Execute(w, a, env) == Some(After(w, a, env))
  {
    hide ApplyOps, Stored;
    var id, content := DriveIdOf(a, env), w.tree.files[a.relativePath].content;
    if a.kind == NewUpload {
      TwoOpsApply(w, DriveCreate(id, content), UpsertRow(StateAfter(a, env)));
    } else {
      TwoOpsApply(w, DriveUpdate(id, content), UpsertRow(StateAfter(a, env)));
    }
  }

  lemma DeletionGoesOn(w: World, a: SyncAction, env: Env)
    requires Ready(w, a, env) && Deletes(a)
    ensures Execute(w, a, env) == Some(After(w, a, env))
  {
    hide ApplyOps;
    if a.kind == DeleteRemote {
      TwoOpsApply(w, DriveDelete(DriveIdOf(a, env)), DeleteRow(a.state.value.id));
    } else {
      TwoOpsApply(w, RemoveFile(a.relativePath), DeleteRow(a.state.value.id));
    }
  }

  /** What an action that fetches finds on its way to the disk. */
  ghost predicate WayIsClear(w: World, a: SyncAction, env: Env)
    requires Ready(w, a, env)
  {
    if a.kind == Kind.Conflict then CanWrite(w, CopyPath(w, a, env)) && CanWrite(Copied(w, a, env), a.relativePath)
    else Fetches(a) ==> CanWrite(w, a.relativePath)
  }

  /** An action that finds what it needs, and nothing in its way, runs to its end. */
  lemma GoesThrough(w: World, a: SyncAction, env: Env)
    requires Ready(w, a, env) && WayIsClear(w, a, env) && (!Deletes(a) ==> IdIsFree(w.rows, StateAfter(a, env)))
    ensures Execute(w, a, env) == Some(After(w, a, env))
  {
    hide Execute, After, IdIsFree, StateAfter, CanWrite, CopyPath;
    if Deletes(a) {
      DeletionGoesOn(w, a, env);
    } else if Uploads(a) {
      UploadGoesThrough(w, a, env);
    } else if a.kind == Kind.Conflict {
      ConflictGoesThrough(w, a, env);
    } else {
      DownloadGoesThrough(w, a, env);
    }
  }

  // ----- what is asked of the start -----

  /** A directory that is there, or that a fetch will make. */
  ghost predicate DirNeeded(c: Cycle, d: string) {
    d in c.world.tree.dirs || exists a :: a in c.queue && Fetches(a) && d in Ancestors(Parent(a.relativePath))
  }

  /** Every directory, there or needed, has an ordinary name, and is neither a file nor the target of a fetch. */
  ghost predicate RoomForAll(c: Cycle) {
    && (forall d :: DirNeeded(c, d) ==> OrdinaryName(d) && d !in c.world.tree.files)
    && (forall a :: a in c.queue && Fetches(a) ==> !DirNeeded(c, a.relativePath))
  }

  /** The ids that come from outside are new, and differ from each other. */
  ghost predicate FreshEnvs(w: World, envs: seq<Env>) {
    && (forall i :: 0 <= i < |envs| ==>
          envs[i].newId !in w.drive && forall p :: p in w.rows ==> w.rows[p].id != envs[i].uuid)
    && (forall i, j :: 0 <= i < j < |envs| ==> envs[i].newId != envs[j].newId && envs[i].uuid != envs[j].uuid)
  }

  /** The row of the action has a Drive file that is there. */
  ghost predicate DriveFileThere(c: Cycle, a: SyncAction) {
    && a.relativePath in c.ctx.rows && c.ctx.rows[a.relativePath].driveFileId.Some?
    && c.ctx.rows[a.relativePath].driveFileId.value in c.world.drive
  }

  /** What an action of a faithful start finds there. */
  ghost predicate Provided(c: Cycle, a: SyncAction) {
    && a in c.queue && Shape(c, a) && !IsTmp(a.relativePath) && TrueAction(c, a)
    && (a.kind == UpdateUpload || a.kind == DeleteRemote ==> DriveFileThere(c, a))
    && (a.kind == DeleteLocal ==> a.relativePath in c.world.tree.files)
    && (a.kind == NewDownload ==> a.state == None)
  }

  lemma NewHasNoState(c: Cycle, a: SyncAction)
    requires Faithful(c) && a in c.queue && a.kind == NewDownload
    ensures a.state == None
  {
    hide MergedAt, RemoteActions, KnownPaths, IndexFull, ChangeTrue, LocalActionAt, RowTrue;
    FaithfulParts(c);
    assert IndexOk(c.ctx) by { IndexIsOk(c.ctx); }
    RemoteActionsFit(c.ctx, KnownPaths(c.ctx), c.changes);
    MergeIsPointwise(c.local, c.remote, a.relativePath);
    var l := PickAt(c.local, a.relativePath);
    if l.Some? { LocalShapeOf(c, l.value); }
    if r :| r in c.remote && r.relativePath == a.relativePath {
      CombineFetches(l, r);
    }
  }

  lemma DriveFileIsThere(c: Cycle, a: SyncAction)
    requires Faithful(c) && a in c.queue && (a.kind == UpdateUpload || a.kind == DeleteRemote) && Shape(c, a)
    ensures DriveFileThere(c, a)
  {
    hide MergedAt, RemoteActions, KnownPaths, LocalExactly, OwnFile;
    var s := c.ctx.rows[a.relativePath];
    assert RowTrue(c, s);
    if ch :| ch in c.changes && ch.fileId == s.driveFileId.value && (Live(ch) || ch.removed == Some(true)) {
      assert ChangeTrue(c.world, ch);
      if ch.removed == Some(true) { RemovalWins(c, ch, a); }
    }
  }

  /** Nothing but the deletion is queued for the row of a removed file. */
  lemma RemovalWins(c: Cycle, ch: DriveChange, a: SyncAction)
    requires Faithful(c) && ch in c.changes && ch.removed == Some(true) && a in c.queue && a.relativePath in c.ctx.rows
    requires c.ctx.rows[a.relativePath].driveFileId == Some(ch.fileId)
    ensures a.kind == DeleteLocal
  {
    hide MergedAt, RemoteActions, KnownPaths, LocalActionAt, RowTrue, ChangeTrue;
    KnownFileEmits(c.ctx, KnownPaths(c.ctx), c.changes, ch);
    var r := DeleteLocalOf(a.relativePath, c.ctx.rows[a.relativePath]);
    assert ActionOf(c.ctx, KnownPaths(c.ctx), ch) == Some(r);
    MergeIsPointwise(c.local, c.remote, a.relativePath);
    assert MergedAt(c.local, c.remote, a.relativePath) == Some(a);
  }

  lemma AllProvided(c: Cycle)
    requires Faithful(c) && DeletionsFindTheirFiles(c)
    ensures forall a :: a in c.queue ==> Provided(c, a)
  {
    hide Computed, IndexFull, RowTrue, ChangeTrue, TrueAction, Shape, IsTmp, DriveFileThere;
    ShapesOfRun(c);
    forall a | a in c.queue ensures Provided(c, a) {
      var i :| 0 <= i < |c.queue| && c.queue[i] == a;
      ActionsAreTrue(c, a);
      if a.kind == UpdateUpload || a.kind == DeleteRemote { DriveFileIsThere(c, a); }
      if a.kind == NewDownload { NewHasNoState(c, a); }
    }
  }

  // ----- the run -----

  /** Files and directories do not get in each other's way. */
  ghost predicate Clear(c: Cycle, w: World) {
    && (forall d :: d in w.tree.dirs ==> DirNeeded(c, d))
    && (forall p :: p in w.tree.files ==> !DirNeeded(c, p))
  }

  lemma ReadyInRun(c: Cycle, w: World, rest: seq<SyncAction>, env: Env, copies: set<string>)
    requires Inv(c, w, rest, copies) && rest != [] && Provided(c, rest[0]) && IndexFull(c.ctx)
    requires env.newId !in w.drive
    ensures Ready(w, rest[0], env)
  {
    hide Settled, IsTmp;
    var a := rest[0];
    assert Convergence.Pending(rest, a.relativePath);
    assert Untouched(c, w, a.relativePath, copies);
    if a.kind == UpdateUpload || a.kind == DeleteRemote {
      var id := c.ctx.rows[a.relativePath].driveFileId.value;
      assert DriveAt(w, id) == DriveAt(c.world, id);
    }
    if Fetches(a) { FetchIsKept(c, w, rest, a); }
  }

  lemma {:induction false} IdIsFreeInRun(c: Cycle, w: World, rest: seq<SyncAction>, env: Env, copies: set<string>)
    requires Inv(c, w, rest, copies) && rest != [] && Provided(c, rest[0]) && !Deletes(rest[0])
    requires forall p :: p in w.rows ==> w.rows[p].id != env.uuid
    ensures Fetches(rest[0]) ==> rest[0].driveFile.Some?
    ensures IdIsFree(w.rows, StateAfter(rest[0], env))
  {
    hide Settled, IsTmp, DriveKept, TrueAction, DriveFileThere;
    var a := rest[0];
    assert Convergence.Pending(rest, a.relativePath);
    assert Untouched(c, w, a.relativePath, copies);
    assert RowAt(w.rows, a.relativePath) == RowAt(c.ctx.rows, a.relativePath);
  }

  lemma WriteIsClear(c: Cycle, w: World, a: SyncAction, path: string)
    requires Clear(c, w) && RoomForAll(c) && a in c.queue && Fetches(a) && Parent(path) == Parent(a.relativePath)
    requires !DirNeeded(c, path)
    ensures CanWrite(w, path)
  {
    hide OrdinaryName, Parent, Ancestors, TempPath;
    TempPathIsTmp(path);
    if DirNeeded(c, TempPath(path)) { NotTmpName(TempPath(path)); }
    forall d | d in Ancestors(Parent(path)) ensures DirNeeded(c, d) {}
  }

  lemma NotTmpName(path: string)
    requires OrdinaryName(path)
    ensures !IsTmp(path)
  {
  }

  lemma MarkedIsNoDir(c: Cycle, path: string)
    requires RoomForAll(c) && Contains(path, COPY_MARK)
    ensures !DirNeeded(c, path)
  {
    hide DirNeeded, Contains, IsTmp;
  }

  lemma ClearAfterWrite(c: Cycle, w: World, path: string, content: Content, now: Time)
    requires Clear(c, w) && !DirNeeded(c, path) && forall d :: d in Ancestors(Parent(path)) ==> DirNeeded(c, d)
    ensures Clear(c, WithFile(w, path, content, now))
  {
    hide DirNeeded, Ancestors, Parent, TempPath;
  }

  lemma CopyIsBeside(w: World, a: SyncAction, env: Env)
    requires '/' !in env.stamp
    ensures Parent(CopyPath(w, a, env)) == Parent(a.relativePath)
  {
    hide FirstFree, Parent, ConflictName, Sibling;
    var n := FirstFree(a.relativePath, env.stamp, w.tree.files.Keys + w.tree.dirs, 1);
    LongConflictName(FileName(a.relativePath), env.stamp, n);
    SameParent(a.relativePath, ConflictName(FileName(a.relativePath), env.stamp, n));
  }

  lemma WayInRun(c: Cycle, w: World, a: SyncAction, env: Env)
    requires Clear(c, w) && RoomForAll(c) && a in c.queue && Ready(w, a, env) && '/' !in env.stamp
    ensures WayIsClear(w, a, env) && Clear(c, After(w, a, env))
  {
    hide DirNeeded, OrdinaryName, Parent, Ancestors, TempPath, CopyPath, CanWrite, Clear, WithFile, Contains;
    var path := a.relativePath;
    if Fetches(a) {
      forall d | d in Ancestors(Parent(path)) ensures DirNeeded(c, d) { FetchNeeds(c, a, d); }
      if a.kind == Kind.Conflict {
        var copy := CopyPath(w, a, env);
        CopyIsBeside(w, a, env);
        CopyIsMarked(w, a, env);
        MarkedIsNoDir(c, copy);
        WriteIsClear(c, w, a, copy);
        ClearAfterWrite(c, w, copy, w.tree.files[path].content, env.now);
        var copied := Copied(w, a, env);
        WriteIsClear(c, copied, a, path);
        ClearAfterWrite(c, copied, path, w.drive[DriveIdOf(a, env)], env.now);
      } else {
        WriteIsClear(c, w, a, path);
        ClearAfterWrite(c, w, path, w.drive[DriveIdOf(a, env)], env.now);
      }
    }
    SameTreeIsClear(c, w, a, env);
  }

  lemma FetchNeeds(c: Cycle, a: SyncAction, d: string)
    requires a in c.queue && Fetches(a) && d in Ancestors(Parent(a.relativePath))
    ensures DirNeeded(c, d)
  {
  }

  /** Only the tree matters for what is in the way. */
  lemma SameTreeIsClear(c: Cycle, w: World, a: SyncAction, env: Env)
    requires Clear(c, w) && Ready(w, a, env)
    requires a.kind == Kind.Conflict ==>
        Clear(c, WithFile(Copied(w, a, env), a.relativePath, w.drive[DriveIdOf(a, env)], env.now))
    requires Fetches(a) && a.kind != Kind.Conflict ==>
        Clear(c, WithFile(w, a.relativePath, w.drive[DriveIdOf(a, env)], env.now))
    ensures Clear(c, After(w, a, env))
  {
    hide DirNeeded, StateAfter, CopyPath, WithFile;
  }

  /** The only new ids in the world after an action are those that came from outside. */
  lemma NewIds(w: World, a: SyncAction, env: Env)
    requires Ready(w, a, env)
    requires Fetches(a) && a.state.Some? ==>
        a.relativePath in w.rows && w.rows[a.relativePath].id == a.state.value.id
    ensures After(w, a, env).drive.Keys <= w.drive.Keys + {env.newId}
    ensures forall p :: p in After(w, a, env).rows ==>
              || After(w, a, env).rows[p].id == env.uuid
              || exists q :: q in w.rows && w.rows[q].id == After(w, a, env).rows[p].id
  {
    hide CopyPath, TempPath, Parent, StoredTime, StoredSeconds;
  }

  lemma {:induction false} StaysFresh(w: World, a: SyncAction, envs: seq<Env>, next: World)
    requires envs != [] && FreshEnvs(w, envs) && Ready(w, a, envs[0]) && next == After(w, a, envs[0])
    requires Fetches(a) && a.state.Some? ==>
        a.relativePath in w.rows && w.rows[a.relativePath].id == a.state.value.id
    ensures FreshEnvs(next, envs[1..])
  {
    hide After, Ready;
    NewIds(w, a, envs[0]);
    var rest := envs[1..];
    assert forall i :: 0 <= i < |rest| ==> rest[i] == envs[i + 1];
  }

  lemma {:induction false} RunsThrough(c: Cycle, w: World, rest: seq<SyncAction>, envs: seq<Env>, copies: set<string>)
    requires Inv(c, w, rest, copies) && DistinctPaths(rest) && IndexFull(c.ctx) && |rest| == |envs|
    requires forall i :: 0 <= i < |rest| ==> Provided(c, rest[i])
    requires forall i :: 0 <= i < |envs| ==> EnvOk(c.ctx, envs[i])
    requires RoomForAll(c) && Clear(c, w) && FreshEnvs(w, envs)
    ensures ExecuteAll(w, rest, envs).Some?
    decreases |rest|
  {
    hide Inv, Execute, IndexFull, EnvOk, Ready, RoomForAll, Clear, FreshEnvs, After, Provided, IdIsFree, WayIsClear,
        CopyMade;
    if rest != [] {
      var a, env := rest[0], envs[0];
      var next := OneRunsThrough(c, w, rest, envs, copies);
      var tail, tailEnvs := rest[1..], envs[1..];
      assert forall i :: 0 <= i < |tail| ==> tail[i] == rest[i + 1];
      assert forall i :: 0 <= i < |tailEnvs| ==> tailEnvs[i] == envs[i + 1];
      RestIsDistinct(rest);
      RunsThrough(c, next, tail, tailEnvs, copies + CopyMade(w, a, env));
    }
  }

  lemma RestIsDistinct(rest: seq<SyncAction>)
    requires rest != [] && DistinctPaths(rest)
    ensures DistinctPaths(rest[1..])
  {
  }

  lemma OneRunsThrough(c: Cycle, w: World, rest: seq<SyncAction>, envs: seq<Env>, copies: set<string>)
    returns (next: World)
    requires Inv(c, w, rest, copies) && DistinctPaths(rest) && IndexFull(c.ctx) && |rest| == |envs| && rest != []
    requires Provided(c, rest[0]) && EnvOk(c.ctx, envs[0]) && RoomForAll(c) && Clear(c, w) && FreshEnvs(w, envs)
    ensures Execute(w, rest[0], envs[0]) == Some(next)
    ensures Inv(c, next, rest[1..], copies + CopyMade(w, rest[0], envs[0])) && Clear(c, next)
    ensures FreshEnvs(next, envs[1..])
  {
    hide Inv, Execute, IndexFull, Ready, RoomForAll, Clear, After, IdIsFree, WayIsClear, CopyMade, Shape, TrueAction,
        IsTmp, DriveFileThere, StateAfter;
    var a, env := rest[0], envs[0];
    ReadyInRun(c, w, rest, env, copies);
    if !Deletes(a) { IdIsFreeInRun(c, w, rest, env, copies); }
    WayInRun(c, w, a, env);
    GoesThrough(w, a, env);
    next := After(w, a, env);
    FirstSteps(c, w, rest, env, next, copies);
    StepKeepsInv(c, w, rest, env, next, copies);
    RowInRun(c, w, rest, copies);
    StaysFresh(w, a, envs, next);
  }

  lemma {:induction false} RowInRun(c: Cycle, w: World, rest: seq<SyncAction>, copies: set<string>)
    requires Inv(c, w, rest, copies) && rest != [] && Provided(c, rest[0])
    ensures var a := rest[0];
      Fetches(a) && a.state.Some? ==> a.relativePath in w.rows && w.rows[a.relativePath].id == a.state.value.id
  {
    hide Settled, DriveKept, IsTmp, TrueAction, DriveFileThere;
    assert Convergence.Pending(rest, rest[0].relativePath);
    assert Untouched(c, w, rest[0].relativePath, copies);
    assert RowAt(w.rows, rest[0].relativePath) == RowAt(c.ctx.rows, rest[0].relativePath);
  }

  // ----- the theorem -----

  lemma ClearAtStart(c: Cycle)
    requires RoomForAll(c)
    ensures Clear(c, c.world)
  {
    hide OrdinaryName, Ancestors;
  }

  /** From a faithful start with room for all, a cycle in which nothing fails runs to its end and converges. */
  lemma {:induction false} CycleCompletes(c: Cycle, envs: seq<Env>)
    requires Faithful(c) && RoomForAll(c) && FreshEnvs(c.world, envs) && |envs| == |c.queue|
    requires forall i :: 0 <= i < |envs| ==> EnvOk(c.ctx, envs[i])
    requires DeletionsFindTheirFiles(c)
    ensures ExecuteAll(c.world, c.queue, envs).Some?
    ensures Converged(ExecuteAll(c.world, c.queue, envs).value, CopiesMade(c.world, c.queue, envs))
  {
    hide Faithful, RoomForAll, FreshEnvs, EnvOk, ExecuteAll, Inv, IndexFull, Computed, Provided, Clear, ChangeTrue,
        Converged, CopiesMade;
    FaithfulParts(c);
    AllProvided(c);
    InvAtStart(c);
    ClearAtStart(c);
    RunsThrough(c, c.world, c.queue, envs, {});
    CycleConverges(c, envs, ExecuteAll(c.world, c.queue, envs).value);
  }

  /** When the files whose deletion is queued have ordinary names or are there, such a cycle runs to its end exactly
      when all of them are there. */
  lemma {:induction false} CycleCompletesExactly(c: Cycle, envs: seq<Env>)
    requires Faithful(c) && RoomForAll(c) && FreshEnvs(c.world, envs) && |envs| == |c.queue|
    requires forall i :: 0 <= i < |envs| ==> EnvOk(c.ctx, envs[i])
    requires forall a :: a in c.queue && a.kind == DeleteLocal ==>
               a.relativePath in c.world.tree.files || OrdinaryName(a.relativePath)
    ensures ExecuteAll(c.world, c.queue, envs).Some? <==> DeletionsFindTheirFiles(c)
  {
    hide Faithful, RoomForAll, FreshEnvs, EnvOk, ExecuteAll, Execute, CopiesMade, OrdinaryName;
    if DeletionsFindTheirFiles(c) {
      CycleCompletes(c, envs);
    }
    if ExecuteAll(c.world, c.queue, envs).Some? {
      forall a | a in c.queue && a.kind == DeleteLocal ensures a.relativePath in c.world.tree.files {
        var j :| 0 <= j < |c.queue| && c.queue[j] == a;
        var end := ExecuteAll(c.world, c.queue, envs).value;
        var mid, copies := RunFrom(c, envs, end, j);
        var rest, restEnvs := c.queue[j..], envs[j..];
        assert rest[0] == a && restEnvs[0] == envs[j];
        var next := RunsOn(c, mid, rest, restEnvs, end, copies);
        DeletionRunsExactly(c, envs, j, mid);
      }
    }
  }
}
