/** What a cycle finds to do after an earlier cycle failed part of the way through its queue. */
module Resume {
  import opened Model
  import opened Paths
  import opened LocalFiles
  import opened Actions
  import opened FileStates
  import opened LocalDiff
  import opened RemoteDiff
  import opened Merge
  import opened Queue
  import opened Executor
  import opened Safety
  import opened Effects
  import opened Convergence

  // ----- the index of a table -----

  /** The listing of the table, in any order. */
  ghost predicate TableListing(listing: seq<FileState>, rows: States) {
    && (forall p :: p in rows ==> rows[p].relativePath == p && rows[p] in listing)
    && (forall s :: s in listing ==> s.relativePath in rows && rows[s.relativePath] == s)
  }

  ghost predicate DistinctDriveIds(rows: States) {
    forall p, q ::
      p in rows && q in rows && rows[p].driveFileId.Some? && rows[p].driveFileId == rows[q].driveFileId ==> p == q
  }

  lemma {:induction false} IndexHolds(listing: seq<FileState>)
    ensures forall id :: id in ById(listing) ==>
        ById(listing)[id] in listing && ById(listing)[id].driveFileId == Some(id)
    ensures forall s :: s in listing && s.driveFileId.Some? ==> s.driveFileId.value in ById(listing)
  {
    if listing != [] {
      var n := |listing| - 1;
      IndexHolds(listing[..n]);
      assert listing == listing[..n] + [listing[n]];
    }
  }

  /** When no two rows share a Drive file, the index built from the listing holds every row. */
  lemma IndexOfListing(listing: seq<FileState>, rows: States, root: string)
    requires TableListing(listing, rows) && DistinctDriveIds(rows)
    ensures IndexFull(Context(rows, ById(listing), root))
  {
    IndexHolds(listing);
    forall p | p in rows && rows[p].driveFileId.Some? ensures ById(listing)[rows[p].driveFileId.value] == rows[p] {
      assert rows[p] in listing;
    }
  }

  // ----- the changes one by one -----

  /** The paths known when the change at `i` is met. */
  function PathsAt(ctx: Context, changes: seq<DriveChange>, i: nat): map<string, string>
    requires i <= |changes|
  {
    PathsAfter(ctx, KnownPaths(ctx), changes[..i])
  }

  /** The action of the change at `i`. */
  function EmittedAt(ctx: Context, changes: seq<DriveChange>, i: nat): Option<SyncAction>
    requires i < |changes|
  {
    ActionOf(ctx, PathsAt(ctx, changes, i), changes[i])
  }

  lemma {:induction false} PathsAfterOneMore(ctx: Context, paths: map<string, string>, changes: seq<DriveChange>,
                                             ch: DriveChange)
    ensures PathsAfter(ctx, paths, changes + [ch]) == NextPaths(ctx, PathsAfter(ctx, paths, changes), ch)
    decreases |changes|
  {
    hide NextPaths;
    var all := changes + [ch];
    if changes == [] {
      assert all == [ch] && all[1..] == [];
    } else {
      assert all[0] == changes[0] && all[1..] == changes[1..] + [ch];
      PathsAfterOneMore(ctx, NextPaths(ctx, paths, changes[0]), changes[1..], ch);
    }
  }

  lemma PathsAtNext(ctx: Context, changes: seq<DriveChange>, i: nat)
    requires i < |changes|
    ensures PathsAt(ctx, changes, i + 1) == NextPaths(ctx, PathsAt(ctx, changes, i), changes[i])
  {
    hide NextPaths, PathsAfter, KnownPaths;
    assert changes[..i + 1] == changes[..i] + [changes[i]];
    PathsAfterOneMore(ctx, KnownPaths(ctx), changes[..i], changes[i]);
  }

  /** Every remote action is the action of one of the changes. */
  lemma RemoteComesFromChanges(ctx: Context, changes: seq<DriveChange>)
    ensures forall i :: 0 <= i < |changes| && EmittedAt(ctx, changes, i).Some? ==>
              EmittedAt(ctx, changes, i).value in RemoteActions(ctx, KnownPaths(ctx), changes)
    ensures forall r :: r in RemoteActions(ctx, KnownPaths(ctx), changes) ==>
              exists i :: 0 <= i < |changes| && EmittedAt(ctx, changes, i) == Some(r)
  {
    hide ActionOf, NextPaths, KnownPaths;
    assert changes[..|changes|] == changes;
    RemotePrefix(ctx, changes, |changes|);
  }

  lemma {:induction false} RemotePrefix(ctx: Context, changes: seq<DriveChange>, n: nat)
    requires n <= |changes|
    ensures forall i :: 0 <= i < n && EmittedAt(ctx, changes, i).Some? ==>
              EmittedAt(ctx, changes, i).value in RemoteActions(ctx, KnownPaths(ctx), changes[..n])
    ensures forall r :: r in RemoteActions(ctx, KnownPaths(ctx), changes[..n]) ==>
              exists i :: 0 <= i < n && EmittedAt(ctx, changes, i) == Some(r)
  {
    hide ActionOf, NextPaths, KnownPaths, PathsAfter;
    if n > 0 {
      RemotePrefix(ctx, changes, n - 1);
      var before, one := changes[..n - 1], [changes[n - 1]];
      assert changes[..n] == before + one;
      DiffAppend(ctx, KnownPaths(ctx), before, one);
      var paths := PathsAfter(ctx, KnownPaths(ctx), before);
      OneRemote(ctx, paths, changes[n - 1]);
      assert EmittedAt(ctx, changes, n - 1) == ActionOf(ctx, paths, changes[n - 1]);
    }
  }

  lemma OneRemote(ctx: Context, paths: map<string, string>, ch: DriveChange)
    ensures RemoteActions(ctx, paths, [ch]) == Emit(ActionOf(ctx, paths, ch))
  {
    hide ActionOf, NextPaths;
    var one := [ch];
    assert one[1..] == [];
    assert RemoteActions(ctx, NextPaths(ctx, paths, ch), one[1..]) == [];
  }

  // ----- a cycle that stopped -----

  /** What resuming asks of the cycle: every file changed once, one remote action per path, no change of the
      sync root itself, and a queue with downloads first. */
  ghost predicate Resumable(c: Cycle) {
    && Computed(c) && IndexFull(c.ctx) && UniqueIds(c.ctx.rows) && DistinctPaths(c.remote)
    && (forall i, j :: 0 <= i < j < |c.changes| ==> c.changes[i].fileId != c.changes[j].fileId)
    && (forall i :: 0 <= i < |c.changes| ==>
          (Live(c.changes[i]) ==> c.changes[i].file.value.id == c.changes[i].fileId)
          && c.changes[i].fileId != c.ctx.root)
    && c.ctx.root !in c.ctx.byId
    && (forall i, j :: 0 <= i < j < |c.queue| ==> c.queue[i].Priority() <= c.queue[j].Priority())
  }

  /** The path of a known file is taken over by the `i`-th change, which is about an unknown file of that name. */
  ghost predicate TakenBy(c: Cycle, id: string, i: nat) {
    && i < |c.changes| && id in c.ctx.byId && c.changes[i].fileId !in c.ctx.byId
    && EmittedAt(c.ctx, c.changes, i).Some?
    && EmittedAt(c.ctx, c.changes, i).value.relativePath == c.ctx.byId[id].relativePath
  }

  ghost predicate Taken(c: Cycle, id: string) { exists i :: TakenBy(c, id, i) }

  /** A known file whose path another file takes over is not the parent of an unknown file. */
  ghost predicate NoOrphans(c: Cycle) {
    forall i :: 0 <= i < |c.changes| && Unknown(c.ctx, c.changes[i]) ==>
      match ParentOf(c.changes[i].file.value)
      case Some(parent) => !Taken(c, parent)
      case None => true
  }

  /** The ids Drive gives to new files are new. */
  ghost predicate FreshIds(c: Cycle, envs: seq<Env>) {
    && (forall i :: 0 <= i < |envs| ==>
          envs[i].newId !in c.ctx.byId && envs[i].newId != c.ctx.root
          && forall j :: 0 <= j < |c.changes| ==> c.changes[j].fileId != envs[i].newId)
    && (forall i, j :: 0 <= i < j < |envs| ==> envs[i].newId != envs[j].newId)
  }

  ghost predicate Done(c: Cycle, k: nat, path: string) {
    exists j :: 0 <= j < k && j < |c.queue| && c.queue[j].relativePath == path
  }

  /** The rows after the first `k` actions. */
  ghost predicate RowsDone(c: Cycle, envs: seq<Env>, k: nat, rows: States) {
    && k <= |c.queue| == |envs|
    && (forall j :: 0 <= j < k ==> RowDone(rows, c.queue[j], envs[j]))
    && (forall p :: !Done(c, k, p) ==> RowAt(rows, p) == RowAt(c.ctx.rows, p))
  }

  lemma RowsAfterPrefix(c: Cycle, envs: seq<Env>, k: nat, mid: World)
    requires Resumable(c) && k <= |c.queue| == |envs|
    requires ExecuteAll(c.world, c.queue[..k], envs[..k]) == Some(mid)
    ensures RowsDone(c, envs, k, mid.rows)
  {
    hide Execute, RowDone, MergedAt;
    var run, runEnvs := c.queue[..k], envs[..k];
    forall i | 0 <= i < k ensures Fits(c.world.rows, run[i]) {
      ShapeOfQueue(c, c.queue[i]);
    }
    RowsArePointwise(c.world, run, runEnvs, mid);
    forall j | 0 <= j < k ensures RowDone(mid.rows, c.queue[j], envs[j]) {
      assert RowDone(mid.rows, run[j], runEnvs[j]);
    }
    forall p | !Done(c, k, p) ensures RowAt(mid.rows, p) == RowAt(c.ctx.rows, p) {
      assert forall i :: 0 <= i < |run| ==> run[i] == c.queue[i] && c.queue[i].relativePath != p;
    }
  }

  /** The change behind a queued action that fetches a file or removes one: it emitted the remote action
      that the queued action carries on. */
  ghost predicate Source(c: Cycle, i: nat, a: SyncAction) {
    && i < |c.changes| && EmittedAt(c.ctx, c.changes, i).Some?
    && var r := EmittedAt(c.ctx, c.changes, i).value;
       r.relativePath == a.relativePath && (Fetches(a) ==> Fetches(r) && r.driveFile == a.driveFile)
  }

  lemma EmittedShape(ctx: Context, paths: map<string, string>, ch: DriveChange)
    requires IndexOk(ctx) && ActionOf(ctx, paths, ch).Some?
    ensures var r := ActionOf(ctx, paths, ch).value;
      if r.kind == DeleteLocal then ch.removed == Some(true) && ch.fileId in ctx.byId
          && ctx.byId[ch.fileId].relativePath == r.relativePath
      else Live(ch) && (r.kind == NewDownload || r.kind == UpdateDownload) && r.driveFile == ch.file
           && ResolvePath(ctx, paths, ch) == Some(r.relativePath)
  {
  }

  lemma FetchHasSource(c: Cycle, a: SyncAction) returns (i: nat)
    requires Resumable(c) && a in c.queue && Fetches(a)
    ensures Source(c, i, a)
  {
    hide MergedAt, LocalActionAt, RemoteActions, KnownPaths, ActionOf, IndexFull, PathsAt, Emit;
    MergeIsPointwise(c.local, c.remote, a.relativePath);
    RemoteComesFromChanges(c.ctx, c.changes);
    assert IndexOk(c.ctx) by { FullIsOk(c.ctx); }
    RemoteActionsFit(c.ctx, KnownPaths(c.ctx), c.changes);
    var l := PickAt(c.local, a.relativePath);
    if l.Some? { LocalShapeOf(c, l.value); }
    var r :| r in c.remote && r.relativePath == a.relativePath;
    CombineFetches(l, r);
    i :| 0 <= i < |c.changes| && EmittedAt(c.ctx, c.changes, i) == Some(r);
  }

  lemma FullIsOk(ctx: Context)
    requires IndexFull(ctx)
    ensures IndexOk(ctx)
  {
  }

  lemma CombineFetches(l: Option<SyncAction>, r: SyncAction)
    requires RemoteShape(r)
    ensures var a := Combine(l, r);
      (Fetches(a) <==> Fetches(r)) && (Fetches(a) ==> a.driveFile == r.driveFile) && (!Fetches(r) ==> a == r)
      && (r.kind == NewDownload ==> a == r)
  {
  }

  // ----- who owns a Drive file after the run -----

  /** The path is the one that a Drive id belongs to: by its row at the start, by an upload that ran, or by
      a change of a file that was unknown. */
  ghost predicate OwnerByRow(c: Cycle, path: string, id: string) {
    path in c.ctx.rows && c.ctx.rows[path].driveFileId == Some(id)
  }

  ghost predicate OwnerByUpload(c: Cycle, envs: seq<Env>, path: string, id: string) {
    exists j :: 0 <= j < |c.queue| && j < |envs| && c.queue[j].relativePath == path && envs[j].newId == id
  }

  ghost predicate OwnerByChange(c: Cycle, path: string, id: string) {
    id !in c.ctx.byId && exists i :: 0 <= i < |c.changes| && EmitsFor(c, i, path, id)
  }

  ghost predicate EmitsFor(c: Cycle, i: nat, path: string, id: string)
    requires i < |c.changes|
  {
    c.changes[i].fileId == id && EmittedAt(c.ctx, c.changes, i).Some?
        && EmittedAt(c.ctx, c.changes, i).value.relativePath == path
  }

  ghost predicate Owner(c: Cycle, envs: seq<Env>, path: string, id: string) {
    OwnerByRow(c, path, id) || OwnerByUpload(c, envs, path, id) || OwnerByChange(c, path, id)
  }

  lemma {:induction false} OneRowOwner(c: Cycle, envs: seq<Env>, p: string, q: string, id: string)
    requires IndexFull(c.ctx) && FreshIds(c, envs) && OwnerByRow(c, p, id) && Owner(c, envs, q, id)
    ensures p == q
  {
    hide EmittedAt;
    assert id in c.ctx.byId;
  }

  lemma {:induction false} OneUploadOwner(c: Cycle, envs: seq<Env>, p: string, q: string, id: string)
    requires FreshIds(c, envs) && OwnerByUpload(c, envs, p, id) && !OwnerByRow(c, q, id) && Owner(c, envs, q, id)
    ensures p == q
  {
    hide EmittedAt, OwnerByRow;
    assert !OwnerByChange(c, q, id);
  }

  lemma OneChangeOwner(c: Cycle, p: string, q: string, id: string)
    requires forall i, j :: 0 <= i < j < |c.changes| ==> c.changes[i].fileId != c.changes[j].fileId
    requires OwnerByChange(c, p, id) && OwnerByChange(c, q, id)
    ensures p == q
  {
    hide EmittedAt;
    var i :| 0 <= i < |c.changes| && EmitsFor(c, i, p, id);
    var j :| 0 <= j < |c.changes| && EmitsFor(c, j, q, id);
    assert i == j;
  }

  lemma OneOwner(c: Cycle, envs: seq<Env>, p: string, q: string, id: string)
    requires Resumable(c) && FreshIds(c, envs) && Owner(c, envs, p, id) && Owner(c, envs, q, id)
    ensures p == q
  {
    hide Computed, IndexFull, FreshIds, OwnerByRow, OwnerByUpload, OwnerByChange;
    if OwnerByRow(c, p, id) {
      OneRowOwner(c, envs, p, q, id);
    } else if OwnerByRow(c, q, id) {
      OneRowOwner(c, envs, q, p, id);
    } else if OwnerByUpload(c, envs, p, id) {
      OneUploadOwner(c, envs, p, q, id);
    } else if OwnerByUpload(c, envs, q, id) {
      OneUploadOwner(c, envs, q, p, id);
    } else {
      OneChangeOwner(c, p, q, id);
    }
  }

  lemma RowHasOwner(c: Cycle, envs: seq<Env>, k: nat, rows: States, p: string)
    requires Resumable(c) && RowsDone(c, envs, k, rows)
    requires p in rows && rows[p].driveFileId.Some?
    ensures Owner(c, envs, p, rows[p].driveFileId.value)
  {
    hide MergedAt, LocalActionAt, RemoteActions, EmittedAt, NewRow, Stored, OwnerByChange, Shape;
    var id := rows[p].driveFileId.value;
    if !Done(c, k, p) {
      assert RowAt(rows, p) == RowAt(c.ctx.rows, p);
    } else {
      var j :| 0 <= j < k && c.queue[j].relativePath == p;
      var a := c.queue[j];
      assert RowDone(rows, a, envs[j]);
      ShapeOfQueue(c, a);
      DriveIdOfNewRow(a, envs[j]);
      if Fetches(a) {
        FetchOwns(c, a);
        assert id == a.driveFile.value.id;
      } else if a.kind == UpdateUpload {
        UpdateOwns(c, a);
      }
    }
  }

  lemma UpdateOwns(c: Cycle, a: SyncAction)
    requires Shape(c, a) && a.kind == UpdateUpload && a.state.Some? && a.state.value.driveFileId.Some?
    ensures OwnerByRow(c, a.relativePath, DriveIdOfRow(a))
  {
  }

  lemma DriveIdOfNewRow(a: SyncAction, env: Env)
    requires Deletes(a) || Uploads(a) || a.driveFile.Some?
    ensures NewRow(a, env).Some? <==> !Deletes(a)
    ensures NewRow(a, env).Some? ==> NewRow(a, env).value.driveFileId == Some(DriveIdOf(a, env))
  {
  }

  lemma FetchOwns(c: Cycle, a: SyncAction)
    requires Resumable(c) && a in c.queue && Fetches(a) && Shape(c, a)
    ensures a.driveFile.Some?
        && (OwnerByRow(c, a.relativePath, a.driveFile.value.id)
            || OwnerByChange(c, a.relativePath, a.driveFile.value.id))
  {
    hide MergedAt, LocalActionAt, RemoteActions, ActionOf, PathsAt, KnownPaths;
    var i := FetchHasSource(c, a);
    assert IndexOk(c.ctx);
    EmittedShape(c.ctx, PathsAt(c.ctx, c.changes, i), c.changes[i]);
    assert c.changes[i] in c.changes;
    var id := a.driveFile.value.id;
    if id in c.ctx.byId {
      assert OwnerByRow(c, a.relativePath, id);
    } else {
      assert EmitsFor(c, i, a.relativePath, id);
    }
  }

  /** No two rows share a Drive file after the run, so the next cycle indexes all of them. */
  lemma {:induction false} IndexFullAfter(c: Cycle, envs: seq<Env>, k: nat, rows: States, listing: seq<FileState>)
    requires Resumable(c) && FreshIds(c, envs) && RowsDone(c, envs, k, rows) && TableListing(listing, rows)
    ensures IndexFull(Context(rows, ById(listing), c.ctx.root))
  {
    hide Resumable, FreshIds, RowsDone, Owner, IndexFull, ById;
    forall p, q | p in rows && q in rows && rows[p].driveFileId.Some?
        && rows[p].driveFileId == rows[q].driveFileId ensures p == q {
      RowHasOwner(c, envs, k, rows, p);
      RowHasOwner(c, envs, k, rows, q);
      OneOwner(c, envs, p, q, rows[p].driveFileId.value);
    }
    IndexOfListing(listing, rows, c.ctx.root);
  }

  // ----- a change whose action has run -----

  /** The queued action for the path of a remote action is what the merge made of it. */
  lemma QueuedFor(c: Cycle, i: nat, a: SyncAction)
    requires Resumable(c) && i < |c.changes| && EmittedAt(c.ctx, c.changes, i).Some?
    requires a in c.queue && a.relativePath == EmittedAt(c.ctx, c.changes, i).value.relativePath
    ensures var r := EmittedAt(c.ctx, c.changes, i).value;
      (Fetches(a) <==> Fetches(r)) && (Fetches(a) ==> a.driveFile == r.driveFile) && (!Fetches(r) ==> a == r)
      && (r.kind == NewDownload ==> a == r)
  {
    hide MergedAt, LocalActionAt, RemoteActions, KnownPaths, ActionOf, IndexFull, PathsAt, EmittedAt;
    var r := EmittedAt(c.ctx, c.changes, i).value;
    RemoteComesFromChanges(c.ctx, c.changes);
    assert IndexOk(c.ctx) by { FullIsOk(c.ctx); }
    RemoteActionsFit(c.ctx, KnownPaths(c.ctx), c.changes);
    MergeIsPointwise(c.local, c.remote, a.relativePath);
    CombineFetches(PickAt(c.local, a.relativePath), r);
  }

  lemma EveryChangeIsQueued(c: Cycle, i: nat)
    requires Resumable(c) && i < |c.changes| && EmittedAt(c.ctx, c.changes, i).Some?
    ensures Done(c, |c.queue|, EmittedAt(c.ctx, c.changes, i).value.relativePath)
  {
    hide MergedAt, LocalActionAt, RemoteActions, KnownPaths, ActionOf, IndexFull, PathsAt, EmittedAt;
    var r := EmittedAt(c.ctx, c.changes, i).value;
    RemoteComesFromChanges(c.ctx, c.changes);
    MergeIsPointwise(c.local, c.remote, r.relativePath);
    MergedIsQueued(c, r.relativePath);
  }

  /** What a live change of a known file emits. */
  lemma KnownEmits(ctx: Context, paths: map<string, string>, ch: DriveChange, p: string)
    requires IndexOk(ctx) && Live(ch) && ch.fileId in ctx.byId && ctx.byId[ch.fileId].relativePath == p
    ensures p in ctx.rows && ctx.byId[ch.fileId] == ctx.rows[p]
    ensures ActionOf(ctx, paths, ch) ==
      if RemoteChanged(ctx.rows[p], ch.file.value.md5Checksum, ch.file.value.modified)
      then Some(UpdateDownloadOf(p, ctx.rows[p], ch.file.value)) else None
  {
  }

  lemma FetchedRow(a: SyncAction, env: Env)
    requires Fetches(a) && a.driveFile.Some?
    ensures NewRow(a, env).Some?
    ensures var s := NewRow(a, env).value; var f := a.driveFile.value;
      s.driveFileId == Some(f.id) && s.driveMd5 == f.md5Checksum && s.driveModified == StoredTime(f.modified)
  {
  }

  /** A removal that has run leaves no row with its Drive id. */
  lemma DoneRemoval(c: Cycle, envs: seq<Env>, k: nat, rows: States, next: Context, i: nat)
    requires Resumable(c) && FreshIds(c, envs) && RowsDone(c, envs, k, rows)
    requires next.rows == rows && IndexFull(next) && next.root == c.ctx.root
    requires i < |c.changes| && EmittedAt(c.ctx, c.changes, i).Some?
    requires var r := EmittedAt(c.ctx, c.changes, i).value; r.kind == DeleteLocal && Done(c, k, r.relativePath)
    ensures c.changes[i].removed == Some(true) && c.changes[i].fileId !in next.byId
  {
    hide Resumable, FreshIds, RowsDone, Owner, EmittedAt;
    var r, id := EmittedAt(c.ctx, c.changes, i).value, c.changes[i].fileId;
    var p := r.relativePath;
    RemovalEmitted(c, i);
    RemovalLeavesNoRow(c, envs, k, rows, i);
    if id in next.byId {
      var q := next.byId[id].relativePath;
      RowHasOwner(c, envs, k, rows, q);
      OwnerOfRow(c, envs, p, id);
      OneOwner(c, envs, p, q, id);
    }
  }

  lemma OwnerOfRow(c: Cycle, envs: seq<Env>, p: string, id: string)
    requires OwnerByRow(c, p, id)
    ensures Owner(c, envs, p, id)
  {
  }

  lemma RemovalEmitted(c: Cycle, i: nat)
    requires Resumable(c) && i < |c.changes| && EmittedAt(c.ctx, c.changes, i).Some?
    requires EmittedAt(c.ctx, c.changes, i).value.kind == DeleteLocal
    ensures c.changes[i].removed == Some(true)
    ensures OwnerByRow(c, EmittedAt(c.ctx, c.changes, i).value.relativePath, c.changes[i].fileId)
  {
    hide ActionOf, PathsAt, MergedAt, LocalActionAt, RemoteActions;
    EmittedShape(c.ctx, PathsAt(c.ctx, c.changes, i), c.changes[i]);
  }

  lemma RemovalLeavesNoRow(c: Cycle, envs: seq<Env>, k: nat, rows: States, i: nat)
    requires Resumable(c) && RowsDone(c, envs, k, rows)
    requires i < |c.changes| && EmittedAt(c.ctx, c.changes, i).Some?
    requires var r := EmittedAt(c.ctx, c.changes, i).value; r.kind == DeleteLocal && Done(c, k, r.relativePath)
    ensures EmittedAt(c.ctx, c.changes, i).value.relativePath !in rows
  {
    hide Resumable, EmittedAt;
    var r := EmittedAt(c.ctx, c.changes, i).value;
    var j :| 0 <= j < k && c.queue[j].relativePath == r.relativePath;
    QueuedFor(c, i, c.queue[j]);
    assert RowDone(rows, c.queue[j], envs[j]);
  }

  /** A fetch that has run leaves a row with the file's id and hash, and with its time cut to what the table keeps. */
  lemma DoneFetch(c: Cycle, envs: seq<Env>, k: nat, rows: States, i: nat)
    requires Resumable(c) && RowsDone(c, envs, k, rows)
    requires i < |c.changes| && EmittedAt(c.ctx, c.changes, i).Some?
    requires var r := EmittedAt(c.ctx, c.changes, i).value; Fetches(r) && Done(c, k, r.relativePath)
    ensures Live(c.changes[i]) && EmittedAt(c.ctx, c.changes, i).value.relativePath in rows
    ensures var s := rows[EmittedAt(c.ctx, c.changes, i).value.relativePath]; var f := c.changes[i].file.value;
      s.driveFileId == Some(c.changes[i].fileId) && s.driveMd5 == f.md5Checksum
          && s.driveModified == StoredTime(f.modified)
  {
    hide MergedAt, LocalActionAt, RemoteActions, ActionOf, PathsAt, StoredTime, NewRow, IndexFull;
    var r := EmittedAt(c.ctx, c.changes, i).value;
    assert IndexOk(c.ctx) by { FullIsOk(c.ctx); }
    EmittedShape(c.ctx, PathsAt(c.ctx, c.changes, i), c.changes[i]);
    var j :| 0 <= j < k && c.queue[j].relativePath == r.relativePath;
    QueuedFor(c, i, c.queue[j]);
    assert RowDone(rows, c.queue[j], envs[j]);
    FetchedRow(c.queue[j], envs[j]);
    assert c.changes[i] in c.changes;
  }

  /** A change whose action has run is quiet in the next cycle; a fetched file is quiet exactly when the
      table can keep its modification time. */
  lemma {:induction false} DoneIsQuiet(c: Cycle, envs: seq<Env>, k: nat, rows: States, next: Context, i: nat)
    requires Resumable(c) && FreshIds(c, envs) && RowsDone(c, envs, k, rows)
    requires next.rows == rows && IndexFull(next) && next.root == c.ctx.root
    requires i < |c.changes| && EmittedAt(c.ctx, c.changes, i).Some?
    requires Done(c, k, EmittedAt(c.ctx, c.changes, i).value.relativePath)
    ensures EmittedAt(next, c.changes, i) == None <==>
              c.changes[i].removed == Some(true)
                  || StoredTime(c.changes[i].file.value.modified) == c.changes[i].file.value.modified
  {
    hide Resumable, FreshIds, RowsDone, StoredTime, PathsAt;
    var r, ch := EmittedAt(c.ctx, c.changes, i).value, c.changes[i];
    EmittedIsRemote(c, i);
    if r.kind == DeleteLocal {
      DoneRemoval(c, envs, k, rows, next, i);
    } else {
      DoneFetch(c, envs, k, rows, i);
      KnownEmits(next, PathsAt(next, c.changes, i), ch, r.relativePath);
    }
  }

  lemma EmittedIsRemote(c: Cycle, i: nat)
    requires Resumable(c) && i < |c.changes| && EmittedAt(c.ctx, c.changes, i).Some?
    ensures var r := EmittedAt(c.ctx, c.changes, i).value;
      if r.kind == DeleteLocal then c.changes[i].removed == Some(true) else Live(c.changes[i]) && Fetches(r)
  {
    hide ActionOf, PathsAt, MergedAt, LocalActionAt, RemoteActions;
    EmittedShape(c.ctx, PathsAt(c.ctx, c.changes, i), c.changes[i]);
  }

  // ----- a change whose action has not run -----

  /** The row of a known file whose action has not run is still indexed. */
  lemma PendingKnown(c: Cycle, envs: seq<Env>, k: nat, rows: States, next: Context, id: string)
    requires Resumable(c) && RowsDone(c, envs, k, rows) && next.rows == rows && IndexFull(next)
    requires id in c.ctx.byId && !Done(c, k, c.ctx.byId[id].relativePath)
    ensures id in next.byId && next.byId[id] == c.ctx.byId[id]
    ensures var p := c.ctx.byId[id].relativePath;
      p in rows && p in c.ctx.rows && rows[p] == c.ctx.rows[p] == c.ctx.byId[id]
  {
    hide MergedAt, LocalActionAt, RemoteActions, RowDone, Computed;
    var p := c.ctx.byId[id].relativePath;
    assert RowAt(rows, p) == RowAt(c.ctx.rows, p);
  }

  /** A change of a known file whose action has not run emits the same action again. */
  lemma PendingKnownEmits(c: Cycle, envs: seq<Env>, k: nat, rows: States, next: Context, i: nat)
    requires Resumable(c) && RowsDone(c, envs, k, rows) && next.rows == rows && IndexFull(next)
    requires i < |c.changes| && EmittedAt(c.ctx, c.changes, i).Some? && c.changes[i].fileId in c.ctx.byId
    requires !Done(c, k, EmittedAt(c.ctx, c.changes, i).value.relativePath)
    ensures EmittedAt(next, c.changes, i) == EmittedAt(c.ctx, c.changes, i)
  {
    hide Resumable, RowsDone, PathsAt, KnownPaths;
    var ch := c.changes[i];
    assert IndexOk(c.ctx) by { ResumableIndex(c); }
    EmittedShape(c.ctx, PathsAt(c.ctx, c.changes, i), ch);
    PendingKnown(c, envs, k, rows, next, ch.fileId);
    if ch.removed != Some(true) {
      KnownEmits(c.ctx, PathsAt(c.ctx, c.changes, i), ch, c.ctx.byId[ch.fileId].relativePath);
      KnownEmits(next, PathsAt(next, c.changes, i), ch, c.ctx.byId[ch.fileId].relativePath);
    }
  }

  lemma ResumableIndex(c: Cycle)
    requires Resumable(c)
    ensures IndexFull(c.ctx)
  {
    hide Computed, IndexFull;
  }

  /** An unknown file that no finished action has fetched is still unknown. */
  lemma StaysUnknown(c: Cycle, envs: seq<Env>, k: nat, rows: States, next: Context, i: nat)
    requires Resumable(c) && FreshIds(c, envs) && RowsDone(c, envs, k, rows) && next.rows == rows && IndexFull(next)
    requires i < |c.changes| && c.changes[i].fileId !in c.ctx.byId
    requires match EmittedAt(c.ctx, c.changes, i)
             case Some(r) => !Done(c, k, r.relativePath)
             case None => true
    ensures c.changes[i].fileId !in next.byId
  {
    hide RowsDone, EmittedAt, Computed, RemoteActions;
    var id := c.changes[i].fileId;
    if id in next.byId {
      var q := next.byId[id].relativePath;
      RowHasOwner(c, envs, k, rows, q);
      assert OwnerByChange(c, q, id);
      var m :| 0 <= m < |c.changes| && EmitsFor(c, m, q, id);
      assert m == i;
      UndoneRow(c, envs, k, rows, q);
    }
  }

  lemma UndoneRow(c: Cycle, envs: seq<Env>, k: nat, rows: States, p: string)
    requires RowsDone(c, envs, k, rows) && !Done(c, k, p)
    ensures RowAt(rows, p) == RowAt(c.ctx.rows, p)
  {
    hide RowDone, Done;
  }

  /** What the live change of an unknown file with a path emits depends on the row of that path only. */
  lemma UnknownWithPath(ctx: Context, paths: map<string, string>, ch: DriveChange, p: string)
    requires Unknown(ctx, ch) && ResolvePath(ctx, paths, ch) == Some(p)
    ensures ActionOf(ctx, paths, ch) ==
      match RowAt(ctx.rows, p)
      case None => Some(NewDownloadOf(p, ch.file.value))
      case Some(s) =>
        if RemoteChanged(s, ch.file.value.md5Checksum, ch.file.value.modified)
        then Some(UpdateDownloadOf(p, s, ch.file.value)) else None
  {
    hide ResolvePath;
  }

  /** Only downloads and conflicts have run. */
  ghost predicate OnlyFetches(c: Cycle, k: nat) {
    forall j :: 0 <= j < k && j < |c.queue| ==> c.queue[j].Priority() <= 1
  }

  /** Downloads and conflicts go first: while one is left, nothing else has run. */
  lemma FetchesFirst(c: Cycle, k: nat, i: nat)
    requires Resumable(c) && i < |c.changes| && EmittedAt(c.ctx, c.changes, i).Some?
    requires var r := EmittedAt(c.ctx, c.changes, i).value; Fetches(r) && !Done(c, k, r.relativePath)
    ensures OnlyFetches(c, k)
  {
    hide MergedAt, LocalActionAt, RemoteActions, Computed, EmittedAt;
    var r := EmittedAt(c.ctx, c.changes, i).value;
    EveryChangeIsQueued(c, i);
    var m :| 0 <= m < |c.queue| && c.queue[m].relativePath == r.relativePath;
    QueuedFor(c, i, c.queue[m]);
    assert c.queue[m].Priority() <= 1;
    assert m >= k;
  }

  /** While only fetches have run, the row of a known file is still indexed at its path, unless another file
      has taken the path over. */
  lemma KnownStay(c: Cycle, envs: seq<Env>, k: nat, rows: States, next: Context, id: string)
    requires Resumable(c) && RowsDone(c, envs, k, rows) && next.rows == rows && IndexFull(next) && OnlyFetches(c, k)
    requires id in c.ctx.byId && !Taken(c, id)
    ensures id in next.byId && next.byId[id].relativePath == c.ctx.byId[id].relativePath
  {
    hide Resumable, RowsDone, RowDone, EmittedAt, OnlyFetches;
    var p := c.ctx.byId[id].relativePath;
    if !Done(c, k, p) {
      PendingKnown(c, envs, k, rows, next, id);
    } else {
      var j :| 0 <= j < k && j < |c.queue| && c.queue[j].relativePath == p;
      var a := c.queue[j];
      assert Fetches(a) by { FetchKind(c, k, j); }
      var i := FetchHasSource(c, a);
      OwnRowOrTaken(c, i, id);
      DoneFetch(c, envs, k, rows, i);
    }
  }

  lemma FetchKind(c: Cycle, k: nat, j: nat)
    requires OnlyFetches(c, k) && j < k && j < |c.queue|
    ensures Fetches(c.queue[j])
  {
  }

  /** A change that emits for the path of a row is a change of that row's file, or takes the path over. */
  lemma OwnRowOrTaken(c: Cycle, i: nat, id: string)
    requires Resumable(c) && id in c.ctx.byId && !Taken(c, id)
    requires i < |c.changes| && EmittedAt(c.ctx, c.changes, i).Some?
    requires EmittedAt(c.ctx, c.changes, i).value.relativePath == c.ctx.byId[id].relativePath
    ensures c.changes[i].fileId == id
  {
    hide MergedAt, LocalActionAt, RemoteActions, Computed, PathsAt, KnownPaths;
    EmittedShape(c.ctx, PathsAt(c.ctx, c.changes, i), c.changes[i]);
    assert c.changes[i].fileId !in c.ctx.byId ==> TakenBy(c, id, i);
  }

  lemma {:induction false} KeysOfPaths(ctx: Context, changes: seq<DriveChange>, i: nat)
    requires i <= |changes|
    ensures var paths := PathsAt(ctx, changes, i);
      && (forall id :: id in ctx.byId ==> id in paths && paths[id] == ctx.byId[id].relativePath)
      && (forall id :: id in paths && id !in ctx.byId ==>
            exists j :: 0 <= j < i && Live(changes[j]) && changes[j].fileId == id)
  {
    hide PathsAt, ResolvePath;
    if i == 0 {
      NoPathsYet(ctx, changes);
    } else {
      KeysOfPaths(ctx, changes, i - 1);
      PathsAtNext(ctx, changes, i - 1);
    }
  }

  lemma NoPathsYet(ctx: Context, changes: seq<DriveChange>)
    ensures PathsAt(ctx, changes, 0) == KnownPaths(ctx)
  {
    assert changes[..0] == [];
  }

  /** The sync root never gets a path. */
  lemma RootHasNoPath(c: Cycle, envs: seq<Env>, k: nat, rows: States, next: Context, i: nat)
    requires Resumable(c) && FreshIds(c, envs) && RowsDone(c, envs, k, rows) && next.rows == rows && IndexFull(next)
    requires i <= |c.changes|
    ensures c.ctx.root !in PathsAt(next, c.changes, i)
  {
    hide RowsDone, PathsAt, Computed, RemoteActions, EmittedAt;
    KeysOfPaths(next, c.changes, i);
    var root := c.ctx.root;
    if root in next.byId {
      RowHasOwner(c, envs, k, rows, next.byId[root].relativePath);
    }
  }

  /** Every path known to the first comparison is known to the second, except for files whose path was taken. */
  ghost predicate Agree(c: Cycle, first: map<string, string>, second: map<string, string>) {
    forall id :: id in first && !Taken(c, id) ==> id in second && second[id] == first[id]
  }

  /** While only fetches have run, an unknown file that has not been fetched resolves to the same path again,
      and its change emits the same. */
  lemma ResolvesAgain(c: Cycle, envs: seq<Env>, k: nat, rows: States, next: Context, i: nat, p: string)
    requires Resumable(c) && NoOrphans(c) && FreshIds(c, envs) && RowsDone(c, envs, k, rows)
    requires next.rows == rows && IndexFull(next) && next.root == c.ctx.root
    requires i < |c.changes| && Unknown(c.ctx, c.changes[i])
    requires ResolvePath(c.ctx, PathsAt(c.ctx, c.changes, i), c.changes[i]) == Some(p)
    requires EmittedAt(c.ctx, c.changes, i).Some? ==> !Done(c, k, p)
    requires Agree(c, PathsAt(c.ctx, c.changes, i), PathsAt(next, c.changes, i))
    ensures Unknown(next, c.changes[i]) && ResolvePath(next, PathsAt(next, c.changes, i), c.changes[i]) == Some(p)
    ensures EmittedAt(c.ctx, c.changes, i).Some? ==> EmittedAt(next, c.changes, i) == EmittedAt(c.ctx, c.changes, i)
  {
    hide Resumable, FreshIds, RowsDone, PathsAt, IndexFull, Taken, ResolvePath, ActionOf, Done;
    var ch := c.changes[i];
    UnknownWithPath(c.ctx, PathsAt(c.ctx, c.changes, i), ch, p);
    StaysUnknown(c, envs, k, rows, next, i);
    RootHasNoPath(c, envs, k, rows, next, i);
    SameBelow(c, next, PathsAt(c.ctx, c.changes, i), PathsAt(next, c.changes, i), ch);
    UnknownWithPath(next, PathsAt(next, c.changes, i), ch, p);
    if EmittedAt(c.ctx, c.changes, i).Some? { UndoneRow(c, envs, k, rows, p); }
  }

  lemma SameBelow(c: Cycle, next: Context, first: map<string, string>, second: map<string, string>, ch: DriveChange)
    requires Unknown(c.ctx, ch) && Unknown(next, ch) && next.root == c.ctx.root && c.ctx.root !in second
    requires Agree(c, first, second) && ResolvePath(c.ctx, first, ch).Some?
    requires match ParentOf(ch.file.value) case Some(parent) => !Taken(c, parent) case None => true
    ensures ResolvePath(next, second, ch) == ResolvePath(c.ctx, first, ch)
  {
    hide Taken;
  }

  lemma {:induction false} PathsAgree(c: Cycle, envs: seq<Env>, k: nat, rows: States, next: Context, i: nat)
    requires Resumable(c) && NoOrphans(c) && FreshIds(c, envs) && RowsDone(c, envs, k, rows) && OnlyFetches(c, k)
    requires next.rows == rows && IndexFull(next) && next.root == c.ctx.root && i <= |c.changes|
    ensures Agree(c, PathsAt(c.ctx, c.changes, i), PathsAt(next, c.changes, i))
  {
    hide Resumable, FreshIds, RowsDone, OnlyFetches, PathsAt, IndexFull, ResolvePath, Taken, NoOrphans;
    if i == 0 {
      NoPathsYet(c.ctx, c.changes);
      NoPathsYet(next, c.changes);
      forall id | id in c.ctx.byId && !Taken(c, id)
        ensures id in next.byId && next.byId[id].relativePath == c.ctx.byId[id].relativePath
      {
        KnownStay(c, envs, k, rows, next, id);
      }
    } else {
      PathsAgree(c, envs, k, rows, next, i - 1);
      PathsAtNext(c.ctx, c.changes, i - 1);
      PathsAtNext(next, c.changes, i - 1);
      OneStepAgrees(c, envs, k, rows, next, i - 1);
    }
  }

  lemma OneStepAgrees(c: Cycle, envs: seq<Env>, k: nat, rows: States, next: Context, i: nat)
    requires Resumable(c) && NoOrphans(c) && FreshIds(c, envs) && RowsDone(c, envs, k, rows) && OnlyFetches(c, k)
    requires next.rows == rows && IndexFull(next) && next.root == c.ctx.root && i < |c.changes|
    requires Agree(c, PathsAt(c.ctx, c.changes, i), PathsAt(next, c.changes, i))
    ensures Agree(c, NextPaths(c.ctx, PathsAt(c.ctx, c.changes, i), c.changes[i]),
                  NextPaths(next, PathsAt(next, c.changes, i), c.changes[i]))
  {
    hide Resumable, FreshIds, RowsDone, OnlyFetches, PathsAt, IndexFull, ResolvePath, Taken, NoOrphans, EmittedAt;
    var ch := c.changes[i];
    var resolved := if Unknown(c.ctx, ch) then ResolvePath(c.ctx, PathsAt(c.ctx, c.changes, i), ch) else None;
    if resolved.Some? {
      var r := EmittedAt(c.ctx, c.changes, i);
      if r.Some? && Done(c, k, resolved.value) {
        UnknownIsFetched(c, i, resolved.value);
        FetchedIsKnown(c, envs, k, rows, next, i);
      } else {
        ResolvesAgain(c, envs, k, rows, next, i, resolved.value);
      }
    } else if Unknown(next, ch) && !Taken(c, ch.fileId) {
      NotYetKnown(c, envs, k, rows, next, i);
    }
  }

  /** What the change of an unknown file emits is a fetch to its path. */
  lemma UnknownIsFetched(c: Cycle, i: nat, p: string)
    requires i < |c.changes| && Unknown(c.ctx, c.changes[i]) && EmittedAt(c.ctx, c.changes, i).Some?
    requires ResolvePath(c.ctx, PathsAt(c.ctx, c.changes, i), c.changes[i]) == Some(p)
    ensures var r := EmittedAt(c.ctx, c.changes, i).value; Fetches(r) && r.relativePath == p
  {
    hide ResolvePath, PathsAt, ActionOf;
    UnknownWithPath(c.ctx, PathsAt(c.ctx, c.changes, i), c.changes[i], p);
  }

  /** A fetched file is known at its path. */
  lemma FetchedIsKnown(c: Cycle, envs: seq<Env>, k: nat, rows: States, next: Context, i: nat)
    requires Resumable(c) && RowsDone(c, envs, k, rows) && next.rows == rows && IndexFull(next)
    requires i < |c.changes| && EmittedAt(c.ctx, c.changes, i).Some?
    requires var r := EmittedAt(c.ctx, c.changes, i).value; Fetches(r) && Done(c, k, r.relativePath)
    ensures var p, id := EmittedAt(c.ctx, c.changes, i).value.relativePath, c.changes[i].fileId;
      id in next.byId && id in PathsAt(next, c.changes, i) && PathsAt(next, c.changes, i)[id] == p
  {
    hide Resumable, RowsDone, PathsAt, EmittedAt;
    DoneFetch(c, envs, k, rows, i);
    KeysOfPaths(next, c.changes, i);
  }

  /** A file that only the second comparison takes for unknown has no path yet. */
  lemma NotYetKnown(c: Cycle, envs: seq<Env>, k: nat, rows: States, next: Context, i: nat)
    requires Resumable(c) && RowsDone(c, envs, k, rows) && OnlyFetches(c, k) && next.rows == rows && IndexFull(next)
    requires i < |c.changes| && Unknown(next, c.changes[i]) && !Taken(c, c.changes[i].fileId)
    ensures c.changes[i].fileId !in PathsAt(c.ctx, c.changes, i)
  {
    hide RowsDone, OnlyFetches, PathsAt, Computed, RemoteActions, IndexFull, Taken;
    KeysOfPaths(c.ctx, c.changes, i);
    if c.changes[i].fileId in c.ctx.byId { KnownStay(c, envs, k, rows, next, c.changes[i].fileId); }
  }

  /** A change whose action has not run emits the same action again. */
  lemma {:induction false} PendingIsEmittedAgain(c: Cycle, envs: seq<Env>, k: nat, rows: States, next: Context, i: nat)
    requires Resumable(c) && NoOrphans(c) && FreshIds(c, envs) && RowsDone(c, envs, k, rows)
    requires next.rows == rows && IndexFull(next) && next.root == c.ctx.root
    requires i < |c.changes| && EmittedAt(c.ctx, c.changes, i).Some?
    requires !Done(c, k, EmittedAt(c.ctx, c.changes, i).value.relativePath)
    ensures EmittedAt(next, c.changes, i) == EmittedAt(c.ctx, c.changes, i)
  {
    hide Resumable, NoOrphans, FreshIds, RowsDone, PathsAt, IndexFull, OnlyFetches, EmittedAt;
    if c.changes[i].fileId in c.ctx.byId {
      PendingKnownEmits(c, envs, k, rows, next, i);
    } else {
      var p := EmittedAt(c.ctx, c.changes, i).value.relativePath;
      EmittedUnknown(c, i);
      FetchesFirst(c, k, i);
      PathsAgree(c, envs, k, rows, next, i);
      ResolvesAgain(c, envs, k, rows, next, i, p);
    }
  }

  lemma EmittedUnknown(c: Cycle, i: nat)
    requires Resumable(c) && i < |c.changes| && c.changes[i].fileId !in c.ctx.byId
    requires EmittedAt(c.ctx, c.changes, i).Some?
    ensures var r := EmittedAt(c.ctx, c.changes, i).value;
      && Unknown(c.ctx, c.changes[i]) && Fetches(r)
      && ResolvePath(c.ctx, PathsAt(c.ctx, c.changes, i), c.changes[i]) == Some(r.relativePath)
  {
    hide MergedAt, LocalActionAt, RemoteActions, Computed, PathsAt, IndexFull;
    assert IndexOk(c.ctx) by { FullIsOk(c.ctx); }
    EmittedShape(c.ctx, PathsAt(c.ctx, c.changes, i), c.changes[i]);
  }

  /** Without a parent that keeps its path the second comparison does not find the path of an unknown file:
      once the parent's path has been taken over, the change of the child is lost. */
  lemma {:induction false} OrphanIsLost(c: Cycle, envs: seq<Env>, k: nat, rows: States, next: Context, parent: string,
                                        i: nat, child: nat)
    requires Resumable(c) && FreshIds(c, envs) && RowsDone(c, envs, k, rows)
    requires next.rows == rows && IndexFull(next) && next.root == c.ctx.root
    requires TakenBy(c, parent, i) && Done(c, k, c.ctx.byId[parent].relativePath)
    requires child < |c.changes| && Unknown(c.ctx, c.changes[child])
    requires ParentOf(c.changes[child].file.value) == Some(parent)
    requires EmittedAt(c.ctx, c.changes, child).Some?
        && !Done(c, k, EmittedAt(c.ctx, c.changes, child).value.relativePath)
    requires forall m :: 0 <= m < child && Live(c.changes[m]) ==> c.changes[m].fileId != parent
    ensures EmittedAt(next, c.changes, child) == None
  {
    hide RowsDone, Computed, RemoteActions, EmittedAt, PathsAt, Done, OwnerByUpload, OwnerByChange;
    StaysUnknown(c, envs, k, rows, next, child);
    ParentIsGone(c, envs, k, rows, next, parent, i);
    KeysOfPaths(next, c.changes, child);
    assert parent !in PathsAt(next, c.changes, child);
    assert parent != c.ctx.root;
    NoPathNoAction(next, PathsAt(next, c.changes, child), c.changes[child]);
    assert EmittedAt(next, c.changes, child) == ActionOf(next, PathsAt(next, c.changes, child), c.changes[child]) by {
      EmittedIs(next, c.changes, child);
    }
  }

  lemma EmittedIs(ctx: Context, changes: seq<DriveChange>, i: nat)
    requires i < |changes|
    ensures EmittedAt(ctx, changes, i) == ActionOf(ctx, PathsAt(ctx, changes, i), changes[i])
  {
  }

  lemma NoPathNoAction(ctx: Context, paths: map<string, string>, ch: DriveChange)
    requires Unknown(ctx, ch) && ParentOf(ch.file.value).Some? && ParentOf(ch.file.value).value !in paths
    requires ParentOf(ch.file.value) != Some(ctx.root)
    ensures ActionOf(ctx, paths, ch) == None
  {
  }

  /** After the takeover no row has the Drive id of the file that lost its path. */
  lemma ParentIsGone(c: Cycle, envs: seq<Env>, k: nat, rows: States, next: Context, parent: string, i: nat)
    requires Resumable(c) && FreshIds(c, envs) && RowsDone(c, envs, k, rows)
    requires next.rows == rows && IndexFull(next)
    requires TakenBy(c, parent, i) && Done(c, k, c.ctx.byId[parent].relativePath)
    ensures parent !in next.byId
  {
    hide RowsDone, Computed, RemoteActions, EmittedAt, Done, FreshIds;
    EmittedUnknown(c, i);
    DoneFetch(c, envs, k, rows, i);
    var p := c.ctx.byId[parent].relativePath;
    OwnerOfRow(c, envs, p, parent);
    if parent in next.byId {
      var q := next.byId[parent].relativePath;
      RowHasOwner(c, envs, k, rows, q);
      OneOwner(c, envs, p, q, parent);
    }
  }

  // ----- the theorem -----

  /** Comparing the same changes with the table again emits nothing for a change whose action has run (a
      fetched file: provided the table can keep its modification time), and for every other change that
      emitted an action the same action. */
  ghost predicate Resumes(c: Cycle, k: nat, next: Context) {
    forall i :: 0 <= i < |c.changes| && EmittedAt(c.ctx, c.changes, i).Some? ==>
      if Done(c, k, EmittedAt(c.ctx, c.changes, i).value.relativePath)
      then EmittedAt(next, c.changes, i) == None <==>
             c.changes[i].removed == Some(true)
             || (Live(c.changes[i]) && StoredTime(c.changes[i].file.value.modified) == c.changes[i].file.value.modified)
      else EmittedAt(next, c.changes, i) == EmittedAt(c.ctx, c.changes, i)
  }

  lemma ResumesAfter(c: Cycle, envs: seq<Env>, k: nat, rows: States, listing: seq<FileState>)
    requires Resumable(c) && NoOrphans(c) && FreshIds(c, envs) && RowsDone(c, envs, k, rows)
    requires TableListing(listing, rows)
    ensures Resumes(c, k, Context(rows, ById(listing), c.ctx.root))
  {
    hide Resumable, NoOrphans, FreshIds, RowsDone, EmittedAt, StoredTime, ById, IndexFull, Done;
    var next := Context(rows, ById(listing), c.ctx.root);
    IndexFullAfter(c, envs, k, rows, listing);
    forall i | 0 <= i < |c.changes| && EmittedAt(c.ctx, c.changes, i).Some?
      ensures if Done(c, k, EmittedAt(c.ctx, c.changes, i).value.relativePath)
              then EmittedAt(next, c.changes, i) == None <==>
                     c.changes[i].removed == Some(true)
                     || (Live(c.changes[i])
                         && StoredTime(c.changes[i].file.value.modified) == c.changes[i].file.value.modified)
              else EmittedAt(next, c.changes, i) == EmittedAt(c.ctx, c.changes, i)
    {
      EmittedIsRemote(c, i);
      if Done(c, k, EmittedAt(c.ctx, c.changes, i).value.relativePath) {
        DoneIsQuiet(c, envs, k, rows, next, i);
      } else {
        PendingIsEmittedAgain(c, envs, k, rows, next, i);
      }
    }
  }

  /** Whatever effect of whatever action a cycle fails at, the next comparison of the same changes finds
      exactly the work that is left. */
  lemma {:induction false} FailedCycleResumes(c: Cycle, envs: seq<Env>, k: nat, mid: World, end: World,
                                              listing: seq<FileState>)
    requires Resumable(c) && NoOrphans(c) && FreshIds(c, envs) && k < |c.queue| == |envs|
    requires ExecuteAll(c.world, c.queue[..k], envs[..k]) == Some(mid)
    requires MayStop(mid, PlanOf(mid, c.queue[k], envs[k]).ops, end)
    requires TableListing(listing, end.rows)
    ensures var next := Context(end.rows, ById(listing), c.ctx.root);
      Resumes(c, k, next) || (Execute(mid, c.queue[k], envs[k]) == Some(end) && Resumes(c, k + 1, next))
  {
    hide Resumable, NoOrphans, FreshIds, RowsDone, Resumes, MayStop, PlanOf, Execute, ById;
    StoppedRows(mid, c.queue[k], envs[k], end);
    if end.rows == mid.rows {
      RowsAfterPrefix(c, envs, k, mid);
      ResumesAfter(c, envs, k, end.rows, listing);
    } else {
      OneMoreExecuted(c.world, c.queue, envs, k, mid, end);
      RowsAfterPrefix(c, envs, k + 1, end);
      ResumesAfter(c, envs, k + 1, end.rows, listing);
    }
  }
}
