/** What the cycle after a completed one finds to do when nobody has changed anything in between. */
module NextCycle {
  import opened Model
  import opened Paths
  import opened LocalFiles
  import opened Actions
  import opened FileStates
  import opened LocalDiff
  import opened RemoteDiff
  import opened Merge
  import opened Executor
  import opened Safety
  import opened Effects
  import opened Convergence
  import opened Resume
  import opened Cycles
  import opened Losses
  import opened Edits
  import opened Iteration
  import opened Landing

  // ----- where the path of an action stands at the end -----

  /** The world after the `j`-th action has the file and the row that its path has at the end, deletions aside. */
  lemma StepOf(c: Cycle, envs: seq<Env>, end: World, j: nat) returns (mid: World, next: World)
    requires Faithful(c) && j < |c.queue| == |envs| && !Deletes(c.queue[j])
    requires forall i :: 0 <= i < |envs| ==> EnvOk(c.ctx, envs[i])
    requires ExecuteAll(c.world, c.queue, envs) == Some(end)
    ensures var a := c.queue[j];
      && Stepped(mid, a, envs[j], next) && RowAt(end.rows, a.relativePath) == RowAt(next.rows, a.relativePath)
      && a.relativePath in next.tree.files && FileAt(end, a.relativePath) == FileAt(next, a.relativePath)
      && (Uploads(a) ==> FileAt(mid, a.relativePath) == FileAt(c.world, a.relativePath)
                         && a.relativePath in c.world.tree.files)
      && (Fetches(a) ==> a.driveFile.Some?
                         && DriveAt(mid, a.driveFile.value.id) == DriveAt(c.world, a.driveFile.value.id))
  {
    hide Faithful, EnvOk, ExecuteAll, Running, Stepped, Execute, RowDone, TrueAction, DriveKept, Shape, CopiesMade;
    var a, rest, restEnvs := c.queue[j], c.queue[j..], envs[j..];
    var copies;
    mid, copies := RunFrom(c, envs, end, j);
    assert rest[0] == a && restEnvs[0] == envs[j] && rest[1..] == c.queue[j + 1..];
    next := RunsOn(c, mid, rest, restEnvs, end, copies);
    DistinctInRun(c, mid, rest, restEnvs, end, copies);
    NoneAtPath(c, j, a.relativePath);
    ActionsAreTrue(c, a);
    FetchIsKept(c, mid, rest, a);
    RowsAtEnd(c, envs, end);
    SteppedRow(mid, a, envs[j], next);
    SameRow(end.rows, next.rows, a, envs[j]);
    if Uploads(a) {
      UploadHasFile(c, a);
      EditStillThere(c, mid, rest, restEnvs, end, copies);
    }
    FileIsThere(mid, a, envs[j], next);
    FileStays(c, next, rest[1..], restEnvs[1..], end, copies + CopyMade(mid, a, envs[j]), a.relativePath);
  }

  lemma DistinctInRun(c: Cycle, w: World, rest: seq<SyncAction>, envs: seq<Env>, end: World, copies: set<string>)
    requires |rest| == |envs| && Running(c, w, rest, envs, end, copies)
    ensures DistinctPaths(rest) && DriveKept(c, w, rest)
  {
    hide Settled, Untouched, Shape, EnvOk, IndexFull, ExecuteAll, DriveKept;
  }

  lemma SteppedRow(w: World, a: SyncAction, env: Env, next: World)
    requires Stepped(w, a, env, next)
    ensures RowDone(next.rows, a, env)
  {
    hide RowDone, CopyPath;
  }

  lemma SameRow(one: States, other: States, a: SyncAction, env: Env)
    requires RowDone(one, a, env) && RowDone(other, a, env)
    ensures RowAt(one, a.relativePath) == RowAt(other, a.relativePath)
  {
    hide NewRow;
  }

  lemma UploadHasFile(c: Cycle, a: SyncAction)
    requires TrueAction(c, a) && Uploads(a)
    ensures a.relativePath in c.world.tree.files
  {
  }

  lemma FileIsThere(w: World, a: SyncAction, env: Env, next: World)
    requires Stepped(w, a, env, next) && !Deletes(a)
    ensures a.relativePath in next.tree.files
  {
    hide CopyPath, NewRow;
    assert FileAt(next, a.relativePath) == NewFile(w, a, env, a.relativePath);
  }

  /** An upload in the queue is what the walk found at its path. */
  lemma UploadIsLocal(c: Cycle, a: SyncAction)
    requires Faithful(c) && a in c.queue && Uploads(a)
    ensures LocalActionAt(c.world.tree, c.ctx.rows, a.relativePath) == Some(a)
  {
    hide MergedAt, RemoteActions, KnownPaths, IndexFull, ChangeTrue, LocalActionAt, RowTrue;
    FaithfulParts(c);
    assert IndexOk(c.ctx) by { IndexIsOk(c.ctx); }
    RemoteActionsFit(c.ctx, KnownPaths(c.ctx), c.changes);
    MergeIsPointwise(c.local, c.remote, a.relativePath);
    if r :| r in c.remote && r.relativePath == a.relativePath {
      CombineFetches(PickAt(c.local, a.relativePath), r);
    }
  }

  lemma WhatUploadsCarry(c: Cycle, a: SyncAction)
    requires LocalActionAt(c.world.tree, c.ctx.rows, a.relativePath) == Some(a) && Uploads(a)
    ensures a.relativePath in c.world.tree.files && !Ignored(a.relativePath)
    ensures var file := c.world.tree.files[a.relativePath];
      a.localMd5 == Some(Md5(file.content)) && a.localModified == Some(file.modified)
  {
  }

  /** What the walk finds at a path depends on the file and the row there. */
  lemma SameFinding(one: World, other: World, path: string)
    requires FileAt(one, path) == FileAt(other, path) && RowAt(one.rows, path) == RowAt(other.rows, path)
    requires path in one.tree.files
    ensures LocalActionAt(one.tree, one.rows, path) == LocalActionAt(other.tree, other.rows, path)
  {
    hide Ignored;
  }

  // ----- what the next walk finds -----

  /** The time that the file of a finished fetch or upload has is the one that its row has. */
  predicate TimeFits(a: SyncAction, env: Env) {
    && (Fetches(a) && !Ignored(a.relativePath) ==>
          a.driveFile.Some? && StoredTime(a.driveFile.value.modified) == Some(env.now))
    && (Uploads(a) ==> StoredTime(a.localModified) == a.localModified)
  }

  /** After a completed cycle the walk takes the file of an action for edited exactly when the time of the file is not
      the one in the row. */
  lemma FoundAgain(c: Cycle, envs: seq<Env>, end: World, j: nat)
    requires Faithful(c) && j < |c.queue| == |envs| && !Deletes(c.queue[j])
    requires forall i :: 0 <= i < |envs| ==> EnvOk(c.ctx, envs[i])
    requires ExecuteAll(c.world, c.queue, envs) == Some(end)
    ensures var again := LocalActionAt(end.tree, end.rows, c.queue[j].relativePath);
      && (again == None <==> TimeFits(c.queue[j], envs[j]))
      && (again.Some? ==> again.value.kind == UpdateUpload)
  {
    hide Faithful, EnvOk, ExecuteAll, Stepped, StoredTime, LocalActionAt, Ignored, TrueAction;
    var a := c.queue[j];
    var mid, next := StepOf(c, envs, end, j);
    SameFinding(next, end, a.relativePath);
    if Uploads(a) {
      UploadIsLocal(c, a);
      WhatUploadsCarry(c, a);
      UploadLooksSettled(mid, a, envs[j], next);
      RowOfUpload(mid, a, envs[j], next);
    } else if Ignored(a.relativePath) {
      NothingIgnoredIsFound(next, a.relativePath);
    } else {
      ActionsAreTrue(c, a);
      FetchedHash(c, mid, a, envs[j], next);
      DownloadLooksEdited(mid, a, envs[j], next);
    }
  }

  lemma RowOfUpload(w: World, a: SyncAction, env: Env, next: World)
    requires Uploads(a) && a.relativePath in next.rows && a.relativePath in next.tree.files
    ensures var again := LocalActionAt(next.tree, next.rows, a.relativePath);
      again.Some? ==> again.value.kind == UpdateUpload
  {
  }

  lemma NothingIgnoredIsFound(w: World, path: string)
    requires path in w.tree.files && Ignored(path)
    ensures LocalActionAt(w.tree, w.rows, path) == None
  {
  }

  lemma FetchedHash(c: Cycle, w: World, a: SyncAction, env: Env, next: World)
    requires TrueAction(c, a) && Fetches(a) && Stepped(w, a, env, next)
    requires a.driveFile.Some? && DriveAt(w, a.driveFile.value.id) == DriveAt(c.world, a.driveFile.value.id)
    ensures DriveIdOf(a, env) in w.drive
        && a.driveFile.value.md5Checksum == Some(Md5(w.drive[DriveIdOf(a, env)]))
  {
  }

  /** A path that no action was for and that has a row is as quiet as before. */
  lemma StillQuiet(c: Cycle, envs: seq<Env>, end: World, p: string)
    requires Faithful(c) && |c.queue| == |envs| && ExecuteAll(c.world, c.queue, envs) == Some(end)
    requires forall i :: 0 <= i < |envs| ==> EnvOk(c.ctx, envs[i])
    requires !Convergence.Pending(c.queue, p) && p in end.rows
    ensures LocalActionAt(end.tree, end.rows, p) == None
  {
    hide Faithful, EnvOk, ExecuteAll, Running, RowDone, LocalActionAt, CopiesMade;
    RowsAtEnd(c, envs, end);
    assert RowAt(end.rows, p) == RowAt(c.ctx.rows, p);
    QuietAtStart(c, p);
    var mid, copies := RunFrom(c, envs, end, 0);
    assert c.queue[..0] == [] && envs[..0] == [] && c.queue[0..] == c.queue && envs[0..] == envs;
    NothingRun(c.world, c.queue[..0], envs[..0]);
    FileStays(c, mid, c.queue, envs, end, copies, p);
    SameFinding(c.world, end, p);
  }

  lemma QuietAtStart(c: Cycle, p: string)
    requires Faithful(c) && !Convergence.Pending(c.queue, p) && p in c.ctx.rows
    ensures LocalActionAt(c.world.tree, c.ctx.rows, p) == None && p in c.world.tree.files
    ensures LeftAlone(c.queue, p) && c.world.rows == c.ctx.rows
  {
    hide IndexFull, ChangeTrue, MergedAt, RemoteActions, LocalExactly, LocalActionAt, RowTrue;
    NoActionAt(c, p);
    SettledAtStart(c, p);
  }

  // ----- conflict copies -----

  lemma CopyIsSeen(w: World, a: SyncAction, env: Env)
    requires !Ignored(a.relativePath) && '/' !in env.stamp
    ensures !Ignored(CopyPath(w, a, env))
  {
    hide FirstFree, ConflictName, Sibling, Ignored;
    var path, n := a.relativePath, FirstFree(a.relativePath, env.stamp, w.tree.files.Keys + w.tree.dirs, 1);
    LongConflictName(FileName(path), env.stamp, n);
    SiblingIsSeen(path, ConflictName(FileName(path), env.stamp, n));
  }

  lemma SiblingIsSeen(path: string, name: string)
    requires !Ignored(path) && '/' !in name && |name| > 8
    ensures !Ignored(Sibling(path, name))
  {
    hide NameAt;
    SiblingName(path, name);
    SameParent(path, name);
  }

  lemma {:induction false} RowRemains(c: Cycle, w: World, rest: seq<SyncAction>, envs: seq<Env>, end: World,
                                      copies: set<string>, path: string)
    requires |rest| == |envs| && Running(c, w, rest, envs, end, copies) && !Convergence.Pending(rest, path)
    ensures RowAt(end.rows, path) == RowAt(w.rows, path)
    decreases |rest|
  {
    hide Running, Stepped, Execute;
    if rest == [] {
      RunEnds(c, w, rest, envs, end, copies);
    } else {
      var next := RunsOn(c, w, rest, envs, end, copies);
      DistinctInRun(c, w, rest, envs, end, copies);
      assert rest[0].relativePath != path;
      PendingShifts(rest, path);
      RowElsewhere(w, rest[0], envs[0], next, path);
      RowRemains(c, next, rest[1..], envs[1..], end, copies + CopyMade(w, rest[0], envs[0]), path);
    }
  }

  lemma RowElsewhere(w: World, a: SyncAction, env: Env, next: World, path: string)
    requires Stepped(w, a, env, next) && path != a.relativePath
    ensures RowAt(next.rows, path) == RowAt(w.rows, path)
  {
    hide CopyPath, NewRow;
  }

  /** What a path that is not there in the middle of a run can still be waiting for. */
  lemma MissingInRun(c: Cycle, w: World, rest: seq<SyncAction>, envs: seq<Env>, end: World, copies: set<string>,
                     q: string)
    requires |rest| == |envs| && Running(c, w, rest, envs, end, copies) && q !in w.tree.files
    ensures Convergence.Pending(rest, q) ==> q !in c.world.tree.files
    ensures !Convergence.Pending(rest, q) ==> q !in w.rows
  {
    hide Shape, EnvOk, IndexFull, ExecuteAll, DriveKept;
    if Convergence.Pending(rest, q) {
      assert Untouched(c, w, q, copies);
    } else {
      assert Settled(c.ctx, w, rest, q, copies);
    }
  }

  lemma OnlyDeletionWaits(c: Cycle, a: SyncAction)
    requires Shape(c, a) && a.Priority() >= 1 && a.relativePath !in c.world.tree.files
    ensures Deletes(a)
  {
  }

  lemma StampHasNoSlash(ctx: Context, env: Env)
    requires EnvOk(ctx, env)
    ensures '/' !in env.stamp
  {
  }

  lemma EditIsSeen(c: Cycle, l: SyncAction)
    requires Faithful(c) && l in c.local && Uploads(l)
    ensures !Ignored(l.relativePath)
  {
    hide Ignored, MergedAt, RemoteActions, IndexFull, RowTrue, ChangeTrue;
    assert LocalActionAt(c.world.tree, c.ctx.rows, l.relativePath) == Some(l);
  }

  /** The next walk sees a conflict copy, and no row is about it. */
  lemma CopyIsNew(c: Cycle, envs: seq<Env>, end: World, q: string)
    requires Faithful(c) && ByPriority(c.queue) && |c.queue| == |envs|
    requires forall i :: 0 <= i < |envs| ==> EnvOk(c.ctx, envs[i])
    requires ExecuteAll(c.world, c.queue, envs) == Some(end) && q in CopiesMade(c.world, c.queue, envs)
    ensures !Ignored(q) && q !in end.rows
  {
    hide Faithful, EnvOk, ExecuteAll, CopiesMade, CopyPath, Ignored, Running, Shape, RowDone;
    var i := CopyHasMaker(c.world, c.queue, envs, q);
    var a := c.queue[i];
    var mid, copies := RunFrom(c, envs, end, i);
    StampHasNoSlash(c.ctx, envs[i]);
    CopyIsFresh(mid, a, envs[i]);
    assert a in c.queue;
    var l, r := ConflictHasEdit(c, a);
    EditIsSeen(c, l);
    CopyIsSeen(mid, a, envs[i]);
    MissingInRun(c, mid, c.queue[i..], envs[i..], end, copies, q);
    if k :| 0 <= k < |c.queue[i..]| && c.queue[i..][k].relativePath == q {
      var b := c.queue[i + k];
      assert c.queue[i..][k] == b && Convergence.Pending(c.queue[i..], q);
      ShapesOfRun(c);
      OnlyDeletionWaits(c, b);
      RowIsDeleted(c, envs, end, i + k);
    } else {
      RowRemains(c, mid, c.queue[i..], envs[i..], end, copies, q);
    }
  }

  lemma RowIsDeleted(c: Cycle, envs: seq<Env>, end: World, j: nat)
    requires Faithful(c) && j < |c.queue| == |envs| && ExecuteAll(c.world, c.queue, envs) == Some(end)
    requires Deletes(c.queue[j])
    ensures c.queue[j].relativePath !in end.rows
  {
    hide Faithful, ExecuteAll;
    RowsAtEnd(c, envs, end);
    assert RowDone(end.rows, c.queue[j], envs[j]);
  }

  // ----- the whole walk -----

  ghost predicate AllTimesFit(c: Cycle, envs: seq<Env>) {
    forall j :: 0 <= j < |c.queue| && j < |envs| ==> TimeFits(c.queue[j], envs[j])
  }

  /** No conflict copy of the cycle is left. */
  ghost predicate NoCopyLeft(c: Cycle, envs: seq<Env>, end: World)
    requires |c.queue| <= |envs|
  {
    forall q :: q in CopiesMade(c.world, c.queue, envs) ==> q !in end.tree.files
  }

  ghost predicate WalkIsQuiet(w: World) { forall p :: LocalActionAt(w.tree, w.rows, p) == None }

  /** Path by path: what the walk finds after a completed cycle. */
  lemma {:induction false} FoundAtPath(c: Cycle, envs: seq<Env>, end: World, p: string)
    requires Faithful(c) && ByPriority(c.queue) && |c.queue| == |envs|
    requires forall i :: 0 <= i < |envs| ==> EnvOk(c.ctx, envs[i])
    requires ExecuteAll(c.world, c.queue, envs) == Some(end)
    ensures LocalActionAt(end.tree, end.rows, p).Some? <==>
              || (exists j :: 0 <= j < |c.queue| && c.queue[j].relativePath == p && !TimeFits(c.queue[j], envs[j]))
              || (p in CopiesMade(c.world, c.queue, envs) && p in end.tree.files)
  {
    hide Faithful, EnvOk, ExecuteAll, CopiesMade, TimeFits, Good, LocalActionAt;
    CycleConverges(c, envs, end);
    if p in end.rows {
      if p in CopiesMade(c.world, c.queue, envs) { CopyIsNew(c, envs, end, p); }
      FoundAtRow(c, envs, end, p);
    } else {
      forall j | 0 <= j < |c.queue| && c.queue[j].relativePath == p ensures TimeFits(c.queue[j], envs[j]) {
        RowlessIsDeleted(c, envs, end, j);
      }
      if p in CopiesMade(c.world, c.queue, envs) { CopyIsNew(c, envs, end, p); }
      FoundWithoutRow(end, p);
    }
  }

  lemma FoundWithoutRow(w: World, p: string)
    requires p !in w.rows
    ensures LocalActionAt(w.tree, w.rows, p).Some? <==> p in w.tree.files && !Ignored(p)
  {
    hide Ignored;
  }

  lemma RowlessIsDeleted(c: Cycle, envs: seq<Env>, end: World, j: nat)
    requires Faithful(c) && j < |c.queue| == |envs| && ExecuteAll(c.world, c.queue, envs) == Some(end)
    requires c.queue[j].relativePath !in end.rows
    ensures TimeFits(c.queue[j], envs[j])
  {
    hide Faithful, ExecuteAll, StateAfter, Stored, StoredTime, Ignored;
    RowsAtEnd(c, envs, end);
    assert RowDone(end.rows, c.queue[j], envs[j]);
  }

  lemma FoundAtRow(c: Cycle, envs: seq<Env>, end: World, p: string)
    requires Faithful(c) && |c.queue| == |envs| && p in end.rows
    requires forall i :: 0 <= i < |envs| ==> EnvOk(c.ctx, envs[i])
    requires ExecuteAll(c.world, c.queue, envs) == Some(end)
    ensures LocalActionAt(end.tree, end.rows, p).Some? <==>
              exists j :: 0 <= j < |c.queue| && c.queue[j].relativePath == p && !TimeFits(c.queue[j], envs[j])
  {
    hide Faithful, EnvOk, ExecuteAll, TimeFits, LocalActionAt;
    if j :| 0 <= j < |c.queue| && c.queue[j].relativePath == p {
      if Deletes(c.queue[j]) { RowIsDeleted(c, envs, end, j); }
      FoundAgain(c, envs, end, j);
      FaithfulParts(c);
      assert forall i :: 0 <= i < |c.queue| && c.queue[i].relativePath == p ==> i == j;
    } else {
      StillQuiet(c, envs, end, p);
    }
  }

  /** After a completed cycle the walk finds nothing exactly when every fetched file was written at the time that Drive
      gives for it, cut to what the table keeps, the table keeps the time of every uploaded file, and no conflict copy
      is left. */
  lemma {:induction false} WalkIsQuietExactly(c: Cycle, envs: seq<Env>, end: World)
    requires Faithful(c) && ByPriority(c.queue) && |c.queue| == |envs|
    requires forall i :: 0 <= i < |envs| ==> EnvOk(c.ctx, envs[i])
    requires ExecuteAll(c.world, c.queue, envs) == Some(end)
    ensures WalkIsQuiet(end) <==> AllTimesFit(c, envs) && NoCopyLeft(c, envs, end)
  {
    hide Faithful, ByPriority, EnvOk, ExecuteAll, CopiesMade, TimeFits, LocalActionAt;
    forall p ensures LocalActionAt(end.tree, end.rows, p).Some? <==>
              || (exists j :: 0 <= j < |c.queue| && c.queue[j].relativePath == p && !TimeFits(c.queue[j], envs[j]))
              || (p in CopiesMade(c.world, c.queue, envs) && p in end.tree.files)
    {
      FoundAtPath(c, envs, end, p);
    }
    if WalkIsQuiet(end) {
      forall j | 0 <= j < |c.queue| ensures TimeFits(c.queue[j], envs[j]) {
        assert LocalActionAt(end.tree, end.rows, c.queue[j].relativePath) == None;
      }
    }
  }

  // ----- the whole next cycle -----

  /** The change is what Drive reports of an upload, or of a deletion, of the cycle itself. */
  predicate Echo(a: SyncAction, env: Env, ch: DriveChange) {
    ch.fileId == DriveIdOf(a, env)
    && if a.kind == DeleteRemote then ch.removed == Some(true)
       else Uploads(a) && Live(ch) && ch.file.value.md5Checksum == env.reply.md5Checksum
            && ch.file.value.modified == env.reply.modified
  }

  /** Nothing is in the changes but reports of what the cycle itself did. */
  ghost predicate OnlyEchoes(c: Cycle, envs: seq<Env>, changes: seq<DriveChange>) {
    forall ch :: ch in changes ==> exists j :: 0 <= j < |c.queue| && j < |envs| && Echo(c.queue[j], envs[j], ch)
  }

  predicate EchoFits(ch: DriveChange) {
    Live(ch) ==> StoredTime(ch.file.value.modified) == ch.file.value.modified
  }

  lemma {:induction false} UploadEcho(c: Cycle, envs: seq<Env>, end: World, j: nat, ctx: Context,
                                      paths: map<string, string>, ch: DriveChange)
    requires Faithful(c) && j < |c.queue| == |envs| && Uploads(c.queue[j]) && Echo(c.queue[j], envs[j], ch)
    requires forall i :: 0 <= i < |envs| ==> EnvOk(c.ctx, envs[i])
    requires ExecuteAll(c.world, c.queue, envs) == Some(end) && IndexFull(ctx) && ctx.rows == end.rows
    ensures ActionOf(ctx, paths, ch) == None <==> EchoFits(ch)
  {
    hide Faithful, EnvOk, ExecuteAll, Stepped, StoredTime, LocalActionAt, ActionOf;
    var a := c.queue[j];
    var mid, next := StepOf(c, envs, end, j);
    UploadIsLocal(c, a);
    WhatUploadsCarry(c, a);
    UploadLooksSettled(mid, a, envs[j], next);
    assert RowAt(end.rows, a.relativePath) == RowAt(next.rows, a.relativePath);
    KnownEmits(ctx, paths, ch, a.relativePath);
  }

  lemma {:induction false} DeletionEcho(c: Cycle, envs: seq<Env>, end: World, j: nat, ctx: Context,
                                        paths: map<string, string>, ch: DriveChange)
    requires Faithful(c) && Resumable(c) && FreshIds(c, envs)
    requires j < |c.queue| == |envs| && c.queue[j].kind == DeleteRemote && Echo(c.queue[j], envs[j], ch)
    requires ExecuteAll(c.world, c.queue, envs) == Some(end) && IndexFull(ctx) && ctx.rows == end.rows
    ensures ActionOf(ctx, paths, ch) == None
  {
    hide Faithful, Resumable, FreshIds, ExecuteAll, RowsDone, Owner, RowDone, Shape;
    var a := c.queue[j];
    RowIsDeleted(c, envs, end, j);
    RowsDoneAtEnd(c, envs, end);
    ShapesOfRun(c);
    DeletedOwner(c, envs, a, envs[j]);
    if ch.fileId in ctx.byId {
      var q := ctx.byId[ch.fileId].relativePath;
      RowHasOwner(c, envs, |c.queue|, end.rows, q);
      OneOwner(c, envs, a.relativePath, q, ch.fileId);
    }
  }

  lemma DeletedOwner(c: Cycle, envs: seq<Env>, a: SyncAction, env: Env)
    requires Faithful(c) && a.kind == DeleteRemote && Shape(c, a)
    ensures Owner(c, envs, a.relativePath, DriveIdOf(a, env))
  {
    hide Computed, IndexFull, ChangeTrue, OwnerByUpload, OwnerByChange;
    assert RowTrue(c, c.ctx.rows[a.relativePath]);
    assert OwnerByRow(c, a.relativePath, DriveIdOf(a, env));
  }

  /** The cycle after a completed one, when nobody has changed anything in between. */
  ghost predicate Repeats(c: Cycle, envs: seq<Env>, end: World, next: Cycle) {
    && next.world == end && Computed(next) && OnlyEchoes(c, envs, next.changes)
    && exists listing :: TableListing(listing, end.rows) && next.ctx == Context(end.rows, ById(listing), c.ctx.root)
  }

  lemma RemoteIsQuietExactly(c: Cycle, envs: seq<Env>, end: World, next: Cycle)
    requires Faithful(c) && Resumable(c) && FreshIds(c, envs) && |c.queue| == |envs|
    requires forall i :: 0 <= i < |envs| ==> EnvOk(c.ctx, envs[i])
    requires ExecuteAll(c.world, c.queue, envs) == Some(end) && Repeats(c, envs, end, next)
    ensures next.remote == [] <==> forall ch :: ch in next.changes ==> EchoFits(ch)
  {
    hide Faithful, Resumable, FreshIds, EnvOk, ExecuteAll, ById, IndexFull, RowsDone, EchoFits, ActionOf, RemoteActions,
        KnownPaths, MergedAt, LocalExactly, PathsAt;
    var listing :| TableListing(listing, end.rows) && next.ctx == Context(end.rows, ById(listing), c.ctx.root);
    RowsDoneAtEnd(c, envs, end);
    IndexFullAfter(c, envs, |c.queue|, end.rows, listing);
    RemoteComesFromChanges(next.ctx, next.changes);
    forall i | 0 <= i < |next.changes|
      ensures EmittedAt(next.ctx, next.changes, i) == None <==> EchoFits(next.changes[i])
    {
      EchoEmits(c, envs, end, next.ctx, PathsAt(next.ctx, next.changes, i), next.changes, i);
      EmittedIs(next.ctx, next.changes, i);
    }
    if next.remote == [] {
      forall i | 0 <= i < |next.changes| ensures EchoFits(next.changes[i]) {
        assert EmittedAt(next.ctx, next.changes, i) == None;
      }
    } else {
      assert next.remote[0] in next.remote;
    }
  }

  lemma EchoEmits(c: Cycle, envs: seq<Env>, end: World, ctx: Context, paths: map<string, string>,
                  changes: seq<DriveChange>, i: nat)
    requires Faithful(c) && Resumable(c) && FreshIds(c, envs) && |c.queue| == |envs|
    requires forall k :: 0 <= k < |envs| ==> EnvOk(c.ctx, envs[k])
    requires ExecuteAll(c.world, c.queue, envs) == Some(end) && IndexFull(ctx) && ctx.rows == end.rows
    requires i < |changes| && OnlyEchoes(c, envs, changes)
    ensures ActionOf(ctx, paths, changes[i]) == None <==> EchoFits(changes[i])
  {
    hide Faithful, Resumable, FreshIds, EnvOk, ExecuteAll, IndexFull, StoredTime, ActionOf;
    var ch := changes[i];
    assert ch in changes;
    var j :| 0 <= j < |c.queue| && j < |envs| && Echo(c.queue[j], envs[j], ch);
    if Uploads(c.queue[j]) {
      UploadEcho(c, envs, end, j, ctx, paths, ch);
    } else {
      DeletionEcho(c, envs, end, j, ctx, paths, ch);
    }
  }

  /** The queue is empty exactly when both comparisons find nothing. */
  lemma EmptyQueueExactly(c: Cycle)
    requires Computed(c)
    ensures c.queue == [] <==> WalkIsQuiet(c.world) && c.remote == []
  {
    hide LocalActionAt, RemoteActions, KnownPaths;
    if c.local != [] {
      var l := c.local[0];
      assert l in c.local && LocalActionAt(c.world.tree, c.ctx.rows, l.relativePath) == Some(l);
      SomeMerged(c, l.relativePath);
    }
    if c.remote != [] {
      SomeMerged(c, c.remote[0].relativePath);
      assert c.remote[0] in c.remote;
    }
    if !WalkIsQuiet(c.world) {
      var p :| LocalActionAt(c.world.tree, c.world.rows, p) != None;
      LocalActionListed(c, p);
    }
    if c.local == [] && c.remote == [] && c.queue != [] {
      var a := c.queue[0];
      assert a in c.queue;
      NothingMerged(c.local, c.remote, a.relativePath);
    }
  }

  lemma NothingMerged(local: seq<SyncAction>, remote: seq<SyncAction>, path: string)
    requires local == [] && remote == []
    ensures MergedAt(local, remote, path) == None
  {
    assert LastAt(local, path) == None;
  }

  lemma SomeMerged(c: Cycle, path: string)
    requires Computed(c)
    requires exists a :: (a in c.local || a in c.remote) && a.relativePath == path
    ensures c.queue != []
  {
    hide RemoteActions, KnownPaths, LocalActionAt, LocalExactly;
    LastAtOfDistinct(c.local, path);
    OnlyOwnPathMatters(LastAt(c.local, path), c.remote, path);
    var own := ActionsAt(c.remote, path);
    forall i | 0 <= i < |own| ensures own[i].relativePath == path { assert own[i] in own; }
    if own != [] {
      LastIsCarried(LastAt(c.local, path), own, path);
    }
    assert MergedAt(c.local, c.remote, path).Some?;
    var a := MergedAt(c.local, c.remote, path).value;
    assert a.relativePath == path;
    assert a in c.queue;
  }

  /** When nobody changes anything after a completed cycle, the next one has nothing to do exactly when all the times
      fit, no conflict copy is left, and the table keeps the times that Drive answered with. */
  lemma {:induction false} SecondCycleIsEmptyExactly(c: Cycle, envs: seq<Env>, end: World, next: Cycle)
    requires Faithful(c) && Resumable(c) && FreshIds(c, envs) && |c.queue| == |envs|
    requires forall i :: 0 <= i < |envs| ==> EnvOk(c.ctx, envs[i])
    requires ExecuteAll(c.world, c.queue, envs) == Some(end) && Repeats(c, envs, end, next)
    ensures next.queue == [] <==>
              && AllTimesFit(c, envs) && NoCopyLeft(c, envs, end)
              && forall ch :: ch in next.changes ==> EchoFits(ch)
  {
    hide Faithful, Resumable, FreshIds, EnvOk, ExecuteAll, AllTimesFit, NoCopyLeft, EchoFits, WalkIsQuiet, Computed,
        OnlyEchoes;
    RemoteIs(c);
    WalkIsQuietExactly(c, envs, end);
    RemoteIsQuietExactly(c, envs, end, next);
    EmptyQueueExactly(next);
  }

  // ----- cycle after cycle -----

  /** The round ran to its end, and until the next one nobody changes anything. */
  ghost predicate RepeatedBy(r: Round, next: Cycle) {
    && r.ran == |r.cycle.queue| && next.world == r.mid && OnlyEchoes(r.cycle, r.envs, next.changes)
    && forall ch :: ch in next.changes ==> EchoFits(ch)
  }

  lemma NothingRemote(r: Round, next: Cycle)
    requires Faithful(r.cycle) && RoundOk(r) && Then(r, next) && RepeatedBy(r, next)
    ensures next.remote == []
    ensures |r.envs| == |r.cycle.queue| && ExecuteAll(r.cycle.world, r.cycle.queue, r.envs) == Some(r.mid)
    ensures Computed(next) && next.world == r.mid && DistinctPaths(next.remote)
    ensures forall i :: 0 <= i < |r.envs| ==> EnvOk(r.cycle.ctx, r.envs[i])
  {
    hide Faithful, Resumable, FreshIds, EnvOk, ExecuteAll, TrueReplies, Follows, OnlyEchoes, Computed, EchoFits, ById;
    assert r.cycle.queue[..r.ran] == r.cycle.queue && r.envs[..r.ran] == r.envs;
    assert Repeats(r.cycle, r.envs, r.mid, next);
    RemoteIsQuietExactly(r.cycle, r.envs, r.mid, next);
  }

  /** With no remote action the queue holds what the walk finds. */
  lemma OnlyWalkFills(c: Cycle, p: string)
    requires Computed(c) && c.remote == []
    ensures match LocalActionAt(c.world.tree, c.ctx.rows, p)
            case Some(l) =>
              && l in c.queue && l.relativePath == p
              && forall b :: b in c.queue && b.relativePath == p ==> b == l
            case None => forall b :: b in c.queue ==> b.relativePath != p
  {
    hide RemoteActions, KnownPaths, LocalActionAt, MergedAt;
    MergeIsPointwise(c.local, c.remote, p);
    LocalActionListed(c, p);
    forall b | b in c.queue && b.relativePath == p ensures LocalActionAt(c.world.tree, c.ctx.rows, p) == Some(b) {
      assert PickAt(c.local, p) == Some(b);
    }
  }

  lemma UploadKeepsFile(c: Cycle, envs: seq<Env>, end: World, j: nat)
    requires Faithful(c) && j < |c.queue| == |envs| && Uploads(c.queue[j])
    requires forall i :: 0 <= i < |envs| ==> EnvOk(c.ctx, envs[i])
    requires ExecuteAll(c.world, c.queue, envs) == Some(end)
    ensures var p := c.queue[j].relativePath;
      p in end.tree.files && c.queue[j].localModified == Some(end.tree.files[p].modified) && p in end.rows
  {
    hide Faithful, EnvOk, ExecuteAll, Stepped, LocalActionAt, Ignored, RowDone;
    var a := c.queue[j];
    var mid, next := StepOf(c, envs, end, j);
    StepAtPath(mid, a, envs[j], next);
    UploadIsLocal(c, a);
    WhatUploadsCarry(c, a);
    RowsAtEnd(c, envs, end);
    UploadHasRow(end.rows, a, envs[j]);
  }

  lemma UploadHasRow(rows: States, a: SyncAction, env: Env)
    requires RowDone(rows, a, env) && Uploads(a)
    ensures a.relativePath in rows
  {
    hide StateAfter, Stored;
  }

  /** The next cycle uploads the file again, or leaves it alone. */
  lemma UploadedAgain(r: Round, next: Cycle, j: nat)
    requires Faithful(r.cycle) && RoundOk(r) && Then(r, next) && RepeatedBy(r, next)
    requires j < |r.cycle.queue| && Uploads(r.cycle.queue[j])
    ensures var a := r.cycle.queue[j];
      && a.relativePath in next.ctx.rows
      && (Convergence.Pending(next.queue, a.relativePath) <==> StoredTime(a.localModified) != a.localModified)
      && (forall b :: b in next.queue && b.relativePath == a.relativePath ==>
            b.kind == UpdateUpload && b.localModified == a.localModified)
  {
    hide Faithful, RoundOk, Then, RepeatedBy, Computed, EnvOk, ExecuteAll, StoredTime, LocalActionAt;
    var a := r.cycle.queue[j];
    NothingRemote(r, next);
    SameTable(next);
    FoundAgain(r.cycle, r.envs, r.mid, j);
    UploadKeepsFile(r.cycle, r.envs, r.mid, j);
    OnlyWalkFills(next, a.relativePath);
    PendingIsMember(next.queue, a.relativePath);
    var again := LocalActionAt(next.world.tree, next.ctx.rows, a.relativePath);
    if again.Some? { WhatUploadsCarry(next, again.value); }
  }

  lemma SameTable(c: Cycle)
    requires Computed(c)
    ensures c.ctx.rows == c.world.rows
  {
  }

  lemma PendingIsMember(queue: seq<SyncAction>, p: string)
    ensures Convergence.Pending(queue, p) <==> exists b :: b in queue && b.relativePath == p
  {
    if b :| b in queue && b.relativePath == p {
      var i :| 0 <= i < |queue| && queue[i] == b;
    }
  }

  /** A path with a row that a cycle leaves alone is left alone by the next one. */
  lemma LeftAloneAgain(r: Round, next: Cycle, p: string)
    requires Faithful(r.cycle) && RoundOk(r) && Then(r, next) && RepeatedBy(r, next)
    requires p in r.cycle.ctx.rows && !Convergence.Pending(r.cycle.queue, p)
    ensures p in next.ctx.rows && !Convergence.Pending(next.queue, p)
  {
    hide Faithful, RoundOk, Then, RepeatedBy, Computed, EnvOk, ExecuteAll, RowDone, LocalActionAt;
    NothingRemote(r, next);
    SameTable(next);
    RowsAtEnd(r.cycle, r.envs, r.mid);
    assert RowAt(r.mid.rows, p) == RowAt(r.cycle.ctx.rows, p);
    StillQuiet(r.cycle, r.envs, r.mid, p);
    OnlyWalkFills(next, p);
    PendingIsMember(next.queue, p);
  }

  /** A file that a cycle has uploaded is uploaded again by every later one, however many there are and although nobody
      has touched anything, exactly when its time is one that the table cannot keep. */
  lemma {:induction false} UploadedForeverExactly(rounds: seq<Round>, k: nat, j: nat)
    requires 0 < k < |rounds| && Faithful(rounds[0].cycle)
    requires forall i :: 0 <= i < |rounds| ==> RoundOk(rounds[i])
    requires forall i :: 0 < i < |rounds| ==>
               Then(rounds[i - 1], rounds[i].cycle) && RepeatedBy(rounds[i - 1], rounds[i].cycle)
    requires j < |rounds[0].cycle.queue| && Uploads(rounds[0].cycle.queue[j])
    ensures var a := rounds[0].cycle.queue[j]; var queue := rounds[k].cycle.queue;
      && a.relativePath in rounds[k].cycle.ctx.rows
      && (Convergence.Pending(queue, a.relativePath) <==> StoredTime(a.localModified) != a.localModified)
      && (forall b :: b in queue && b.relativePath == a.relativePath ==>
            b.kind == UpdateUpload && b.localModified == a.localModified)
    decreases k
  {
    hide Faithful, RoundOk, Then, RepeatedBy, InStepIfComplete, StoredTime;
    var a, before, now := rounds[0].cycle.queue[j], rounds[k - 1], rounds[k].cycle;
    EveryRoundConverges(rounds, k - 1);
    if k == 1 {
      UploadedAgain(before, now, j);
    } else {
      UploadedForeverExactly(rounds, k - 1, j);
      if Convergence.Pending(before.cycle.queue, a.relativePath) {
        var i :| 0 <= i < |before.cycle.queue| && before.cycle.queue[i].relativePath == a.relativePath;
        assert before.cycle.queue[i] in before.cycle.queue;
        UploadedAgain(before, now, i);
      } else {
        LeftAloneAgain(before, now, a.relativePath);
        PendingIsMember(now.queue, a.relativePath);
      }
    }
  }
}
