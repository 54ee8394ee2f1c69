/** Where the changes of a completed cycle end up, and which of them do not. */
module Landing {
  import opened Model
  import opened Actions
  import opened LocalFiles
  import opened FileStates
  import opened LocalDiff
  import opened RemoteDiff
  import opened Merge
  import opened Executor
  import opened Effects
  import opened Convergence
  import opened Resume
  import opened Cycles
  import opened Edits
  import opened Iteration

  // ----- overlooked changes -----

  lemma OverlookedStep(ctx: Context, paths: map<string, string>, ch: DriveChange)
    requires TrashedRow(ctx, ch) || (Unknown(ctx, ch) && ResolvePath(ctx, paths, ch) == None)
    ensures ActionOf(ctx, paths, ch) == None && NextPaths(ctx, paths, ch) == paths
  {
  }

  lemma OnePath(ctx: Context, paths: map<string, string>, ch: DriveChange)
    ensures PathsAfter(ctx, paths, [ch]) == NextPaths(ctx, paths, ch)
  {
    hide NextPaths;
    var one := [ch];
    assert one[1..] == [];
    assert PathsAfter(ctx, NextPaths(ctx, paths, ch), one[1..]) == NextPaths(ctx, paths, ch);
  }

  /** An overlooked change might as well not be in the list: without it the comparison finds the same actions. */
  lemma OverlookedIsNoChange(ctx: Context, before: seq<DriveChange>, ch: DriveChange, after: seq<DriveChange>)
    requires Overlooked(ctx, before + [ch] + after, |before|)
    ensures var known := KnownPaths(ctx);
      RemoteActions(ctx, known, before + [ch] + after) == RemoteActions(ctx, known, before + after)
  {
    hide ActionOf, NextPaths, KnownPaths, PathsAfter, RemoteActions, ResolvePath;
    var known, all := KnownPaths(ctx), before + [ch] + after;
    var paths := PathsAfter(ctx, known, before);
    assert all[|before|] == ch && all[..|before|] == before;
    assert PathsAt(ctx, all, |before|) == paths;
    OverlookedStep(ctx, paths, ch);
    assert all == before + ([ch] + after);
    DiffAppend(ctx, known, before, [ch] + after);
    DiffAppend(ctx, known, before, after);
    DiffAppend(ctx, paths, [ch], after);
    OneRemote(ctx, paths, ch);
    OnePath(ctx, paths, ch);
    assert [] + RemoteActions(ctx, paths, after) == RemoteActions(ctx, paths, after);
  }

  /** A rename or a move of a file with a row is not followed: whatever name and parents the change brings, the
      comparison asks for the same at the path of the row, and no path changes for the files below it. */
  lemma MoveIsNotFollowed(ctx: Context, paths: map<string, string>, ch: DriveChange, name: string,
                          parents: Option<seq<string>>)
    requires IndexOk(ctx) && Live(ch) && ch.fileId in ctx.byId
    ensures var moved := ch.(file := Some(ch.file.value.(name := name, parents := parents)));
      && NextPaths(ctx, paths, ch) == NextPaths(ctx, paths, moved) == paths
      && (ActionOf(ctx, paths, moved) == None <==> ActionOf(ctx, paths, ch) == None)
      && (ActionOf(ctx, paths, ch).Some? ==>
            ActionOf(ctx, paths, moved) == Some(ActionOf(ctx, paths, ch).value.(driveFile := moved.file)))
  {
    KnownEmits(ctx, paths, ch, ctx.byId[ch.fileId].relativePath);
  }

  // ----- which changes land -----

  /** A row with the id of the file is in step with Drive. */
  ghost predicate Landed(w: World, id: string) {
    exists p :: p in w.rows && w.rows[p].driveFileId == Some(id) && Good(w, p)
  }

  /** The file has a row, and nothing in the queue puts another file in its place or deletes it. */
  ghost predicate RowStays(c: Cycle, id: string) {
    id in c.ctx.byId && forall a :: a in c.queue && a.relativePath == c.ctx.byId[id].relativePath ==> Uploads(a)
  }

  lemma RowsDoneAtEnd(c: Cycle, envs: seq<Env>, end: World)
    requires Resumable(c) && |c.queue| == |envs| && ExecuteAll(c.world, c.queue, envs) == Some(end)
    ensures RowsDone(c, envs, |c.queue|, end.rows)
  {
    hide Resumable, ExecuteAll, RowsDone;
    var n := |c.queue|;
    assert c.queue[..n] == c.queue && envs[..n] == envs;
    RowsAfterPrefix(c, envs, n, end);
  }

  /** A row that only uploads touch keeps its Drive file. */
  lemma StayingRow(c: Cycle, envs: seq<Env>, end: World, id: string)
    requires Faithful(c) && |c.queue| == |envs| && ExecuteAll(c.world, c.queue, envs) == Some(end)
    requires RowStays(c, id)
    ensures var p := c.ctx.byId[id].relativePath; p in end.rows && end.rows[p].driveFileId == Some(id)
  {
    hide Faithful, Computed, IndexFull, ExecuteAll, RowDone, Shape, ChangeTrue;
    FaithfulParts(c);
    IndexIsOk(c.ctx);
    var p := c.ctx.byId[id].relativePath;
    RowsAtEnd(c, envs, end);
    ShapesOfRun(c);
    if j :| 0 <= j < |c.queue| && c.queue[j].relativePath == p {
      assert c.queue[j] in c.queue;
      UploadKeepsId(c, end.rows, c.queue[j], envs[j], id);
    } else {
      assert RowAt(end.rows, p) == RowAt(c.ctx.rows, p);
      assert p in c.ctx.rows;
    }
  }

  lemma UploadKeepsId(c: Cycle, rows: States, a: SyncAction, env: Env, id: string)
    requires IndexOk(c.ctx) && id in c.ctx.byId && a.relativePath == c.ctx.byId[id].relativePath && Uploads(a)
    requires Shape(c, a) && RowDone(rows, a, env)
    ensures a.relativePath in rows && rows[a.relativePath].driveFileId == Some(id)
  {
    DriveIdOfNewRow(a, env);
  }

  /** A row at the end with the id of a file that a change is about comes from that change or was there before. */
  lemma RowOfChange(c: Cycle, envs: seq<Env>, end: World, m: nat, p: string)
    requires Resumable(c) && FreshIds(c, envs) && RowsDone(c, envs, |c.queue|, end.rows) && m < |c.changes|
    requires p in end.rows && end.rows[p].driveFileId == Some(c.changes[m].fileId)
    ensures var id := c.changes[m].fileId;
      if id in c.ctx.byId then p == c.ctx.byId[id].relativePath
      else EmittedAt(c.ctx, c.changes, m).Some? && EmittedAt(c.ctx, c.changes, m).value.relativePath == p
  {
    hide RowsDone, Computed, RemoteActions, EmittedAt;
    var id := c.changes[m].fileId;
    RowHasOwner(c, envs, |c.queue|, end.rows, p);
    if OwnerByChange(c, p, id) {
      var i :| 0 <= i < |c.changes| && EmitsFor(c, i, p, id);
      assert i == m;
    }
  }

  /** An action that puts a file in the place of a row's file, or deletes it, leaves no row with its id, unless it
      brings the change of that very file. */
  lemma ReplacedRow(c: Cycle, envs: seq<Env>, end: World, m: nat, a: SyncAction)
    requires Resumable(c) && RowsDone(c, envs, |c.queue|, end.rows)
    requires m < |c.changes| && c.changes[m].fileId in c.ctx.byId
    requires a in c.queue && a.relativePath == c.ctx.byId[c.changes[m].fileId].relativePath && !Uploads(a)
    requires EmittedAt(c.ctx, c.changes, m) == None
    ensures a.relativePath in end.rows ==> end.rows[a.relativePath].driveFileId != Some(c.changes[m].fileId)
  {
    hide Resumable, EmittedAt, NewRow;
    var j :| 0 <= j < |c.queue| && c.queue[j] == a;
    assert RowDone(end.rows, a, envs[j]);
    DriveIdOfNewRow(a, envs[j]);
    if Fetches(a) {
      var i := FetchHasSource(c, a);
      SourceId(c, i, a);
    }
  }

  lemma SourceId(c: Cycle, i: nat, a: SyncAction)
    requires Resumable(c) && Source(c, i, a) && Fetches(a)
    ensures a.driveFile.Some? && a.driveFile.value.id == c.changes[i].fileId
    ensures forall m :: 0 <= m < |c.changes| && c.changes[m].fileId == c.changes[i].fileId ==> m == i
  {
    hide ActionOf, PathsAt, MergedAt, LocalActionAt, RemoteActions;
    EmittedShape(c.ctx, PathsAt(c.ctx, c.changes, i), c.changes[i]);
  }

  /** The file of a change that is not a removal has a row in step with Drive at the end of a completed cycle exactly
      when the change emitted an action, or the file had a row before that nothing replaces or deletes. */
  lemma {:induction false} LandsExactly(c: Cycle, envs: seq<Env>, end: World, m: nat)
    requires Faithful(c) && Resumable(c) && FreshIds(c, envs) && |envs| == |c.queue|
    requires forall i :: 0 <= i < |envs| ==> EnvOk(c.ctx, envs[i])
    requires ExecuteAll(c.world, c.queue, envs) == Some(end)
    requires m < |c.changes| && c.changes[m].removed != Some(true)
    ensures Landed(end, c.changes[m].fileId) <==>
              EmittedAt(c.ctx, c.changes, m).Some? || RowStays(c, c.changes[m].fileId)
  {
    hide Faithful, Resumable, FreshIds, EnvOk, ExecuteAll, RowsDone, EmittedAt, Good, CopiesMade;
    var id := c.changes[m].fileId;
    RowsDoneAtEnd(c, envs, end);
    CycleConverges(c, envs, end);
    if EmittedAt(c.ctx, c.changes, m).Some? {
      EmittedLands(c, envs, end, m);
    } else {
      if RowStays(c, id) { StayingRow(c, envs, end, id); }
      if p :| p in end.rows && end.rows[p].driveFileId == Some(id) {
        RowOfChange(c, envs, end, m, p);
        forall a | a in c.queue && a.relativePath == p ensures Uploads(a) {
          if !Uploads(a) { ReplacedRow(c, envs, end, m, a); }
        }
      }
    }
  }

  lemma {:induction false} EmittedLands(c: Cycle, envs: seq<Env>, end: World, m: nat)
    requires Faithful(c) && Resumable(c) && |envs| == |c.queue|
    requires forall i :: 0 <= i < |envs| ==> EnvOk(c.ctx, envs[i])
    requires ExecuteAll(c.world, c.queue, envs) == Some(end)
    requires m < |c.changes| && c.changes[m].removed != Some(true) && EmittedAt(c.ctx, c.changes, m).Some?
    ensures Landed(end, c.changes[m].fileId)
  {
    hide Faithful, EnvOk, ExecuteAll, EmittedAt, Computed, RemoteActions, KnownPaths, IndexFull, DriveAt;
    var r := EmittedAt(c.ctx, c.changes, m).value;
    EmittedIsFetch(c, m);
    RemoteComesFromChanges(c.ctx, c.changes);
    RemoteIs(c);
    RemoteActionLands(c, envs, end, r);
  }

  lemma RemoteIs(c: Cycle)
    requires Resumable(c)
    ensures c.remote == RemoteActions(c.ctx, KnownPaths(c.ctx), c.changes) && ByPriority(c.queue)
  {
    hide RemoteActions, KnownPaths, MergedAt, LocalExactly, IndexFull;
  }

  lemma EmittedIsFetch(c: Cycle, m: nat)
    requires Resumable(c) && m < |c.changes| && c.changes[m].removed != Some(true)
    requires EmittedAt(c.ctx, c.changes, m).Some?
    ensures var r := EmittedAt(c.ctx, c.changes, m).value;
      Fetches(r) && r.driveFile.Some? && r.driveFile.value.id == c.changes[m].fileId && Live(c.changes[m])
  {
    hide ActionOf, PathsAt, MergedAt, LocalActionAt, RemoteActions;
    EmittedShape(c.ctx, PathsAt(c.ctx, c.changes, m), c.changes[m]);
  }

  // ----- new files -----

  /** The parent is the sync root or a file that already has a path. */
  predicate ParentIsKnown(ctx: Context, paths: map<string, string>, ch: DriveChange)
    requires ch.file.Some?
  {
    match ParentOf(ch.file.value)
    case Some(parent) => parent == ctx.root || (parent in paths && paths[parent] != "")
    case None => false
  }

  lemma ResolvesExactly(ctx: Context, paths: map<string, string>, ch: DriveChange)
    requires Unknown(ctx, ch)
    ensures ResolvePath(ctx, paths, ch).Some? <==> ParentIsKnown(ctx, paths, ch)
  {
  }

  /** A new Drive file lands exactly when, at its change, its parent is the sync root or has a path, unless the row
      of another file at its path has its hash and its time already. */
  lemma {:induction false} NewFileLandsExactly(c: Cycle, envs: seq<Env>, end: World, m: nat)
    requires Faithful(c) && Resumable(c) && FreshIds(c, envs) && |envs| == |c.queue|
    requires forall i :: 0 <= i < |envs| ==> EnvOk(c.ctx, envs[i])
    requires ExecuteAll(c.world, c.queue, envs) == Some(end)
    requires m < |c.changes| && Unknown(c.ctx, c.changes[m])
    ensures var paths := PathsAt(c.ctx, c.changes, m);
      Landed(end, c.changes[m].fileId) <==>
        ParentIsKnown(c.ctx, paths, c.changes[m]) && !UpToDate(c.ctx, paths, c.changes[m])
  {
    hide Faithful, Resumable, FreshIds, EnvOk, ExecuteAll, PathsAt, Landed, ResolvePath, ParentIsKnown;
    LandsExactly(c, envs, end, m);
    var paths := PathsAt(c.ctx, c.changes, m);
    ResolvesExactly(c.ctx, paths, c.changes[m]);
    if ResolvePath(c.ctx, paths, c.changes[m]).Some? {
      UnknownWithPath(c.ctx, paths, c.changes[m], ResolvePath(c.ctx, paths, c.changes[m]).value);
    }
  }

  /** The paths that the changes have added. */
  lemma {:induction false} AddedPath(ctx: Context, changes: seq<DriveChange>, n: nat, id: string)
    requires n <= |changes| && id !in ctx.byId
    ensures id in PathsAt(ctx, changes, n) <==>
              exists j :: 0 <= j < n && changes[j].fileId == id && Unknown(ctx, changes[j])
                          && ResolvePath(ctx, PathsAt(ctx, changes, j), changes[j]).Some?
    decreases n
  {
    hide PathsAt, ResolvePath;
    if n == 0 {
      NoPathsYet(ctx, changes);
    } else {
      AddedPath(ctx, changes, n - 1, id);
      PathsAtNext(ctx, changes, n - 1);
    }
  }

  /** With parents first, a new Drive file lands exactly when its chain of parents leads to the sync root or to a file
      with a row, with the same exception. */
  lemma {:induction false} ParentsFirstLandsExactly(c: Cycle, envs: seq<Env>, end: World, m: nat, files: map<string,
                                                    DriveFile>)
    requires Faithful(c) && Resumable(c) && FreshIds(c, envs) && |envs| == |c.queue|
    requires forall i :: 0 <= i < |envs| ==> EnvOk(c.ctx, envs[i])
    requires ExecuteAll(c.world, c.queue, envs) == Some(end)
    requires m < |c.changes| && Unknown(c.ctx, c.changes[m])
    requires Describes(c.ctx, c.changes, files) && RootOutside(c.ctx, files)
    requires ParentsFirst(c.ctx, c.changes, files, {})
    ensures Landed(end, c.changes[m].fileId) <==>
              && (exists n: nat :: ChainPath(c.ctx, files, c.changes[m].fileId, n).Some?)
              && !UpToDate(c.ctx, PathsAt(c.ctx, c.changes, m), c.changes[m])
  {
    hide Faithful, FreshIds, EnvOk, ExecuteAll, PathsAt, Landed, ResolvePath, ParentIsKnown, UpToDate, ParentsFirst,
        Describes, RootOutside, ChainPath, Computed, RemoteActions;
    var id, n := c.changes[m].fileId, |c.changes|;
    NewFileLandsExactly(c, envs, end, m);
    ResolvesExactly(c.ctx, PathsAt(c.ctx, c.changes, m), c.changes[m]);
    AddedPath(c.ctx, c.changes, n, id);
    assert id in PathsAt(c.ctx, c.changes, n) <==>
           ResolvePath(c.ctx, PathsAt(c.ctx, c.changes, m), c.changes[m]).Some?;
    AllPaths(c.ctx, c.changes);
    if id in PathsAt(c.ctx, c.changes, n) {
      ResolvedPathIsChainPath(c.ctx, c.changes, files, id);
    }
    if k: nat :| ChainPath(c.ctx, files, id, k).Some? {
      assert id in files by { assert c.changes[m] in c.changes; DescribedFile(c.ctx, c.changes, files, c.changes[m]); }
      ParentsFirstResolvesAll(c.ctx, c.changes, files, id, k);
    }
  }

  lemma AllPaths(ctx: Context, changes: seq<DriveChange>)
    ensures PathsAt(ctx, changes, |changes|) == PathsAfter(ctx, KnownPaths(ctx), changes)
  {
    assert changes[..|changes|] == changes;
  }

  lemma DescribedFile(ctx: Context, changes: seq<DriveChange>, files: map<string, DriveFile>, ch: DriveChange)
    requires Describes(ctx, changes, files) && ch in changes && Unknown(ctx, ch)
    ensures ch.fileId in files
  {
  }

  // ----- files that keep their place -----

  /** Wherever Drive says that a file with a row is now, a cycle leaves no row for it but at the old path; a file in
      the trash keeps row and content unless something else is queued for its path. */
  lemma {:induction false} KnownFileKeepsItsPath(c: Cycle, envs: seq<Env>, end: World, m: nat)
    requires Faithful(c) && Resumable(c) && FreshIds(c, envs) && |envs| == |c.queue|
    requires forall i :: 0 <= i < |envs| ==> EnvOk(c.ctx, envs[i])
    requires ExecuteAll(c.world, c.queue, envs) == Some(end)
    requires m < |c.changes| && c.changes[m].fileId in c.ctx.byId
    ensures var id := c.changes[m].fileId; forall p :: p in end.rows && end.rows[p].driveFileId == Some(id) ==>
              p == c.ctx.byId[id].relativePath
    ensures TrashedRow(c.ctx, c.changes[m]) ==> (Landed(end, c.changes[m].fileId) <==> RowStays(c, c.changes[m].fileId))
  {
    hide Faithful, Resumable, FreshIds, EnvOk, ExecuteAll, RowsDone, Landed, RowStays, EmittedAt;
    var id := c.changes[m].fileId;
    RowsDoneAtEnd(c, envs, end);
    forall p | p in end.rows && end.rows[p].driveFileId == Some(id) ensures p == c.ctx.byId[id].relativePath {
      RowOfChange(c, envs, end, m, p);
    }
    if TrashedRow(c.ctx, c.changes[m]) {
      LandsExactly(c, envs, end, m);
      NothingEmittedExactly(c.ctx, c.changes, m);
    }
  }
}
