/** Which local edits survive a whole cycle. */
module Edits {
  import opened Model
  import opened Paths
  import opened LocalFiles
  import opened Actions
  import opened LocalDiff
  import opened RemoteDiff
  import opened Merge
  import opened Executor
  import opened Safety
  import opened Effects
  import opened Convergence
  import opened Cycles
  import opened Losses

  // ----- the rest of a run -----

  /** A run in the middle of a cycle that will reach its end. */
  ghost predicate Running(c: Cycle, w: World, rest: seq<SyncAction>, envs: seq<Env>, end: World, copies: set<string>) {
    && Inv(c, w, rest, copies) && DistinctPaths(rest) && IndexFull(c.ctx) && |rest| == |envs|
    && (forall i :: 0 <= i < |rest| ==> Shape(c, rest[i]) && !IsTmp(rest[i].relativePath))
    && (forall i :: 0 <= i < |envs| ==> EnvOk(c.ctx, envs[i]))
    && ExecuteAll(w, rest, envs) == Some(end)
  }

  lemma RunsOn(c: Cycle, w: World, rest: seq<SyncAction>, envs: seq<Env>, end: World, copies: set<string>)
    returns (next: World)
    requires |rest| == |envs| && Running(c, w, rest, envs, end, copies) && rest != []
    ensures Execute(w, rest[0], envs[0]) == Some(next) && Stepped(w, rest[0], envs[0], next)
    ensures Running(c, next, rest[1..], envs[1..], end, copies + CopyMade(w, rest[0], envs[0]))
  {
    hide Inv, Execute, Shape, IndexFull, CopyMade, IsTmp, EnvOk, Stepped;
    next := Execute(w, rest[0], envs[0]).value;
    FirstSteps(c, w, rest, envs[0], next, copies);
    StepKeepsInv(c, w, rest, envs[0], next, copies);
  }

  /** The run from the `j`-th action of a completed cycle on. */
  lemma RunFrom(c: Cycle, envs: seq<Env>, end: World, j: nat) returns (mid: World, copies: set<string>)
    requires Faithful(c) && j <= |c.queue| == |envs|
    requires forall i :: 0 <= i < |envs| ==> EnvOk(c.ctx, envs[i])
    requires ExecuteAll(c.world, c.queue, envs) == Some(end)
    ensures ExecuteAll(c.world, c.queue[..j], envs[..j]) == Some(mid)
    ensures copies == CopiesMade(c.world, c.queue[..j], envs[..j])
    ensures Running(c, mid, c.queue[j..], envs[j..], end, copies)
  {
    hide Inv, Execute, Shape, IsTmp, EnvOk, IndexFull, ExecuteAll, CopiesMade;
    assert c.queue == c.queue[..j] + c.queue[j..] && envs == envs[..j] + envs[j..];
    ExecutesInTwoParts(c.world, c.queue[..j], c.queue[j..], envs[..j], envs[j..]);
    mid, copies := ExecuteAll(c.world, c.queue[..j], envs[..j]).value, CopiesMade(c.world, c.queue[..j], envs[..j]);
    InvAfter(c, envs, j, mid);
    FaithfulParts(c);
  }

  lemma FaithfulParts(c: Cycle)
    requires Faithful(c)
    ensures IndexFull(c.ctx) && DistinctPaths(c.queue) && Computed(c) && DistinctPaths(c.remote)
    ensures forall ch :: ch in c.changes ==> ChangeTrue(c.world, ch)
  {
    hide IndexFull, Computed, ChangeTrue;
    assert Computed(c);
    QueueIsDistinct(c);
  }

  lemma QueueIsDistinct(c: Cycle)
    requires Computed(c)
    ensures DistinctPaths(c.queue)
  {
  }

  /** Nothing in the run writes to the path or removes it. */
  ghost predicate LeftAlone(rest: seq<SyncAction>, path: string) {
    forall i :: 0 <= i < |rest| && rest[i].relativePath == path ==> !Fetches(rest[i]) && rest[i].kind != DeleteLocal
  }

  lemma {:induction false} FileStays(c: Cycle, w: World, rest: seq<SyncAction>, envs: seq<Env>, end: World,
                                     copies: set<string>, path: string)
    requires |rest| == |envs| && Running(c, w, rest, envs, end, copies) && path in w.tree.files && LeftAlone(rest, path)
    ensures FileAt(end, path) == FileAt(w, path)
    decreases |rest|
  {
    hide Running, Stepped, Execute;
    if rest == [] {
      RunEnds(c, w, rest, envs, end, copies);
    } else {
      var next := RunsOn(c, w, rest, envs, end, copies);
      StepLeaves(w, rest[0], envs[0], next, path);
      FileStays(c, next, rest[1..], envs[1..], end, copies + CopyMade(w, rest[0], envs[0]), path);
    }
  }

  lemma RunEnds(c: Cycle, w: World, rest: seq<SyncAction>, envs: seq<Env>, end: World, copies: set<string>)
    requires |rest| == |envs| && Running(c, w, rest, envs, end, copies)
    ensures |rest| == |envs| && (rest == [] ==> end == w)
  {
    hide Inv, Shape, IndexFull, EnvOk;
  }

  lemma StepLeaves(w: World, a: SyncAction, env: Env, next: World, path: string)
    requires Stepped(w, a, env, next) && path in w.tree.files
    requires a.relativePath == path ==> !Fetches(a) && a.kind != DeleteLocal
    ensures FileAt(next, path) == FileAt(w, path)
  {
    hide CopyPath, NewRow;
    assert FileAt(next, path) == NewFile(w, a, env, path);
  }

  ghost predicate AllDelete(rest: seq<SyncAction>) { forall i :: 0 <= i < |rest| ==> Deletes(rest[i]) }

  /** Deletions create no file. */
  lemma {:induction false} FileStaysGone(c: Cycle, w: World, rest: seq<SyncAction>, envs: seq<Env>, end: World,
                                         copies: set<string>, path: string)
    requires |rest| == |envs| && Running(c, w, rest, envs, end, copies) && path !in w.tree.files && AllDelete(rest)
    ensures path !in end.tree.files
    decreases |rest|
  {
    hide Running, Stepped, Execute;
    if rest == [] {
      RunEnds(c, w, rest, envs, end, copies);
    } else {
      var next := RunsOn(c, w, rest, envs, end, copies);
      DeletionCreatesNone(w, rest[0], envs[0], next, path);
      FileStaysGone(c, next, rest[1..], envs[1..], end, copies + CopyMade(w, rest[0], envs[0]), path);
    }
  }

  lemma DeletionCreatesNone(w: World, a: SyncAction, env: Env, next: World, path: string)
    requires Stepped(w, a, env, next) && Deletes(a) && path !in w.tree.files
    ensures path !in next.tree.files
  {
    hide CopyPath, NewRow;
    assert FileAt(next, path) == NewFile(w, a, env, path);
  }

  /** A file whose deletion is queued is gone at the end: deletions are the last actions, so nothing puts a
      copy in its place. */
  lemma {:induction false} FileIsRemoved(c: Cycle, w: World, rest: seq<SyncAction>, envs: seq<Env>, end: World,
                                         copies: set<string>, m: nat)
    requires |rest| == |envs| && Running(c, w, rest, envs, end, copies) && ByPriority(rest)
    requires m < |rest| && rest[m].kind == DeleteLocal
    ensures rest[m].relativePath !in end.tree.files
    decreases |rest|
  {
    hide Running, Stepped, Execute;
    var next := RunsOn(c, w, rest, envs, end, copies);
    var later := copies + CopyMade(w, rest[0], envs[0]);
    assert forall i, j :: 0 <= i < j < |rest[1..]| ==> rest[1..][i].Priority() <= rest[1..][j].Priority();
    if m == 0 {
      RemovedByStep(w, rest[0], envs[0], next);
      FileStaysGone(c, next, rest[1..], envs[1..], end, later, rest[0].relativePath);
    } else {
      FileIsRemoved(c, next, rest[1..], envs[1..], end, later, m - 1);
    }
  }

  lemma RemovedByStep(w: World, a: SyncAction, env: Env, next: World)
    requires Stepped(w, a, env, next) && a.kind == DeleteLocal
    ensures a.relativePath !in next.tree.files
  {
    hide CopyPath, NewRow;
    assert FileAt(next, a.relativePath) == NewFile(w, a, env, a.relativePath);
  }

  // ----- one edit -----

  ghost predicate DeletionQueued(c: Cycle, path: string) {
    exists i :: 0 <= i < |c.queue| && c.queue[i].kind == DeleteLocal && c.queue[i].relativePath == path
  }

  /** The bytes that the path of the `j`-th action had at the start are, at the end, at the path, at the copy
      that the action made, or on Drive in the file of the path's row. */
  ghost predicate EditKept(c: Cycle, envs: seq<Env>, j: nat, mid: World, end: World)
    requires j < |c.queue| == |envs| && c.queue[j].relativePath in c.world.tree.files
  {
    var a := c.queue[j];
    var path, bytes := a.relativePath, c.world.tree.files[a.relativePath].content;
    || ContentAt(end, path) == Some(bytes)
    || (a.kind == Kind.Conflict && ContentAt(end, CopyPath(mid, a, envs[j])) == Some(bytes))
    || (path in end.rows && end.rows[path].driveFileId.Some?
        && DriveAt(end, end.rows[path].driveFileId.value) == Some(bytes))
  }

  /** The Drive file that the remote action fetches has the very content of the edit. */
  predicate SameOnDrive(c: Cycle, r: SyncAction, bytes: Content) {
    Fetches(r) && r.driveFile.Some? && DriveAt(c.world, r.driveFile.value.id) == Some(bytes)
  }

  /** Where the run goes from the action of an edited path. */
  lemma AfterAction(c: Cycle, envs: seq<Env>, j: nat, mid: World, end: World, copies: set<string>)
    requires j < |c.queue| == |envs| && ByPriority(c.queue)
    requires Running(c, mid, c.queue[j..], envs[j..], end, copies)
    requires forall i :: 0 <= i < |c.queue| ==> Shape(c, c.queue[i])
    requires c.queue[j].relativePath in c.world.tree.files
    ensures var a := c.queue[j]; var path, bytes := a.relativePath, c.world.tree.files[a.relativePath].content;
      && (Uploads(a) ==> ContentAt(end, path) == Some(bytes))
      && (a.kind == DeleteLocal ==> ContentAt(end, path) == None)
      && (Fetches(a) ==> a.driveFile.Some? && ContentAt(end, path) == DriveAt(mid, a.driveFile.value.id))
      && (a.kind == Kind.Conflict ==>
            && (DeletionQueued(c, CopyPath(mid, a, envs[j])) ==> CopyPath(mid, a, envs[j]) !in c.world.tree.files)
            && ContentAt(end, CopyPath(mid, a, envs[j])) ==
                 if DeletionQueued(c, CopyPath(mid, a, envs[j])) then None else Some(bytes))
  {
    hide Running, Stepped, Execute, CopyPath, DeletionQueued;
    var a, rest, restEnvs := c.queue[j], c.queue[j..], envs[j..];
    var path := a.relativePath;
    assert rest[0] == a && restEnvs[0] == envs[j] && rest[1..] == c.queue[j + 1..] && restEnvs[1..] == envs[j + 1..];
    EditStillThere(c, mid, rest, restEnvs, end, copies);
    var next := RunsOn(c, mid, rest, restEnvs, end, copies);
    var later := copies + CopyMade(mid, a, envs[j]);
    StepAtPath(mid, a, envs[j], next);
    NoneAtPath(c, j, path);
    if a.kind == DeleteLocal {
      assert AllDelete(rest[1..]) by { OnlyDeletionsLeft(c, j); }
      FileStaysGone(c, next, rest[1..], restEnvs[1..], end, later, path);
    } else if path in next.tree.files {
      FileStays(c, next, rest[1..], restEnvs[1..], end, later, path);
    }
    if a.kind == Kind.Conflict {
      CopyFate(c, envs, j, mid, next, end, later);
    }
  }

  lemma EditStillThere(c: Cycle, w: World, rest: seq<SyncAction>, envs: seq<Env>, end: World, copies: set<string>)
    requires |rest| == |envs| && Running(c, w, rest, envs, end, copies) && rest != []
        && rest[0].relativePath in c.world.tree.files
    ensures FileAt(w, rest[0].relativePath) == FileAt(c.world, rest[0].relativePath)
    ensures forall path :: path in c.world.tree.files && Convergence.Pending(rest, path) ==> path in w.tree.files
    ensures DistinctPaths(rest) && DriveKept(c, w, rest)
  {
    hide Settled, Shape, EnvOk, IndexFull, ExecuteAll, DriveKept;
    assert Convergence.Pending(rest, rest[0].relativePath);
    forall path | path in c.world.tree.files && Convergence.Pending(rest, path) ensures path in w.tree.files {
      assert Untouched(c, w, path, copies);
    }
  }

  lemma StepAtPath(w: World, a: SyncAction, env: Env, next: World)
    requires Stepped(w, a, env, next)
    ensures var path := a.relativePath;
      && (Uploads(a) ==> FileAt(next, path) == FileAt(w, path))
      && (a.kind == DeleteLocal ==> FileAt(next, path) == None)
      && (Fetches(a) ==>
          a.driveFile.Some? && ContentAt(next, path) == DriveAt(w, a.driveFile.value.id) && path in next.tree.files)
      && (a.kind == Kind.Conflict ==>
            && path in w.tree.files && CopyPath(w, a, env) !in w.tree.files
            && ContentAt(next, CopyPath(w, a, env)) == Some(w.tree.files[path].content))
  {
    hide CopyPath, NewRow;
    assert FileAt(next, a.relativePath) == NewFile(w, a, env, a.relativePath);
    if a.kind == Kind.Conflict {
      assert FileAt(next, CopyPath(w, a, env)) == NewFile(w, a, env, CopyPath(w, a, env));
    }
  }

  /** No later action is for the path of an action. */
  lemma NoneAtPath(c: Cycle, j: nat, path: string)
    requires j < |c.queue| && DistinctPaths(c.queue[j..]) && path == c.queue[j].relativePath
    ensures LeftAlone(c.queue[j + 1..], path)
  {
    var from, rest := c.queue[j..], c.queue[j + 1..];
    forall i | 0 <= i < |rest| ensures rest[i].relativePath != path {
      assert from[0] == c.queue[j] && from[i + 1] == rest[i];
    }
  }

  lemma OnlyDeletionsLeft(c: Cycle, j: nat)
    requires ByPriority(c.queue) && j < |c.queue| && Deletes(c.queue[j])
    ensures AllDelete(c.queue[j + 1..])
  {
    var rest := c.queue[j + 1..];
    forall i | 0 <= i < |rest| ensures Deletes(rest[i]) {
      assert rest[i] == c.queue[j + 1 + i];
    }
  }

  /** A conflict copy lasts to the end of the cycle exactly when no deletion is queued for its name. */
  lemma {:induction false} CopyFate(c: Cycle, envs: seq<Env>, j: nat, mid: World, next: World, end: World,
                                    copies: set<string>)
    requires j < |c.queue| == |envs| && c.queue[j].kind == Kind.Conflict && ByPriority(c.queue)
    requires Running(c, next, c.queue[j + 1..], envs[j + 1..], end, copies)
    requires Stepped(mid, c.queue[j], envs[j], next)
    requires forall path :: path in c.world.tree.files && Convergence.Pending(c.queue[j..], path) ==>
        path in mid.tree.files
    requires forall i :: 0 <= i < |c.queue| ==> Shape(c, c.queue[i])
    ensures c.queue[j].relativePath in mid.tree.files
    ensures var copy := CopyPath(mid, c.queue[j], envs[j]);
      && (DeletionQueued(c, copy) ==> copy !in c.world.tree.files)
      && ContentAt(end, copy) ==
           if DeletionQueued(c, copy) then None else Some(mid.tree.files[c.queue[j].relativePath].content)
  {
    hide Running, Stepped, CopyPath, Shape;
    var copy, rest := CopyPath(mid, c.queue[j], envs[j]), c.queue[j + 1..];
    StepAtPath(mid, c.queue[j], envs[j], next);
    if DeletionQueued(c, copy) {
      var i :| 0 <= i < |c.queue| && c.queue[i].kind == DeleteLocal && c.queue[i].relativePath == copy;
      assert i > j && rest[i - j - 1] == c.queue[i] == c.queue[j..][i - j];
      assert Convergence.Pending(c.queue[j..], copy);
      assert ByPriority(rest);
      FileIsRemoved(c, next, rest, envs[j + 1..], end, copies, i - j - 1);
    } else {
      OnlyLaterKinds(c, j, mid, copy);
      FileStays(c, next, rest, envs[j + 1..], end, copies, copy);
    }
  }

  /** Behind a conflict no action writes to a path that was free. */
  lemma OnlyLaterKinds(c: Cycle, j: nat, mid: World, copy: string)
    requires j < |c.queue| && c.queue[j].kind == Kind.Conflict && ByPriority(c.queue) && !DeletionQueued(c, copy)
    requires copy !in mid.tree.files
    requires forall path :: path in c.world.tree.files && Convergence.Pending(c.queue[j..], path) ==>
        path in mid.tree.files
    requires forall i :: 0 <= i < |c.queue| ==> Shape(c, c.queue[i])
    ensures LeftAlone(c.queue[j + 1..], copy)
  {
    hide OwnFile;
    var from, rest := c.queue[j..], c.queue[j + 1..];
    forall i | 0 <= i < |rest| && rest[i].relativePath == copy
      ensures !Fetches(rest[i]) && rest[i].kind != DeleteLocal
    {
      assert rest[i] == c.queue[j + 1 + i] == from[i + 1];
      assert Shape(c, c.queue[j + 1 + i]);
      assert Convergence.Pending(from, copy);
    }
  }

  /** The server's content is still that of the start when a queued action fetches it. */
  lemma FetchesTheStart(c: Cycle, w: World, rest: seq<SyncAction>, envs: seq<Env>, end: World, copies: set<string>,
                        a: SyncAction)
    requires |rest| == |envs| && Running(c, w, rest, envs, end, copies) && rest != [] && a == rest[0]
    requires Fetches(a) && a.driveFile.Some? && a.driveFile.value.id in c.world.drive && OwnFile(c.ctx, a)
    ensures DriveAt(w, a.driveFile.value.id) == DriveAt(c.world, a.driveFile.value.id)
  {
    hide Settled, Shape, EnvOk, IndexFull, ExecuteAll, Untouched;
    assert Convergence.Pending(rest, a.relativePath);
    assert DriveKept(c, w, rest);
  }

  lemma {:induction false} RemoteFilesExist(ctx: Context, w: World, paths: map<string, string>,
                                            changes: seq<DriveChange>)
    requires forall ch :: ch in changes ==> ChangeTrue(w, ch)
    ensures forall r :: r in RemoteActions(ctx, paths, changes) && r.driveFile.Some? ==> r.driveFile.value.id in w.drive
    decreases |changes|
  {
    if changes != [] {
      assert changes[0] in changes;
      RemoteFilesExist(ctx, w, NextPaths(ctx, paths, changes[0]), changes[1..]);
    }
  }

  /** What the merge makes of an edit: the upload itself, or the one remote action that meets it, an update
      becoming a conflict. */
  lemma MergedWith(c: Cycle, l: SyncAction, a: SyncAction)
    requires Computed(c) && IndexOk(c.ctx) && DistinctPaths(c.remote)
    requires l in c.local && a in c.queue && a.relativePath == l.relativePath && Uploads(l)
    ensures (forall r :: r in c.remote ==> r.relativePath != l.relativePath) ==> a == l
    ensures forall r :: r in c.remote && r.relativePath == l.relativePath ==>
              && RemoteFits(c.ctx, r) && (r.kind == NewDownload <==> l.kind == NewUpload)
              && (if r.kind == UpdateDownload then a.kind == Kind.Conflict else a == r)
              && (Fetches(r) ==> a.driveFile == r.driveFile)
  {
    hide MergedAt, RemoteActions, KnownPaths;
    MergeIsPointwise(c.local, c.remote, l.relativePath);
    RemoteActionsFit(c.ctx, KnownPaths(c.ctx), c.changes);
    assert PickAt(c.local, l.relativePath) == Some(l);
    assert LocalActionAt(c.world.tree, c.ctx.rows, l.relativePath) == Some(l);
  }

  /** Every edit has an action in the queue. */
  lemma EditIsQueued(c: Cycle, l: SyncAction) returns (j: nat)
    requires Computed(c) && DistinctPaths(c.remote) && l in c.local
    ensures j < |c.queue| && c.queue[j].relativePath == l.relativePath
  {
    hide MergedAt, RemoteActions, KnownPaths, LocalActionAt;
    MergedIsQueued(c, l.relativePath);
    MergeIsPointwise(c.local, c.remote, l.relativePath);
    j :| 0 <= j < |c.queue| && c.queue[j].relativePath == l.relativePath;
  }

  lemma IndexIsOk(ctx: Context)
    requires IndexFull(ctx)
    ensures IndexOk(ctx)
  {
  }

  /** What decides over an edit: the remote action that meets it, and whether the copy that a conflict makes
      of it is itself queued for deletion. */
  ghost predicate Spared(c: Cycle, a: SyncAction, copy: string, bytes: Content) {
    forall r :: r in c.remote && r.relativePath == a.relativePath ==>
      SameOnDrive(c, r, bytes) || (r.kind == UpdateDownload && !DeletionQueued(c, copy))
  }

  /** A new or edited local file survives its cycle exactly when no remote action meets it, or the one that
      does brings the same content, or it is an update and the conflict copy is not deleted again. */
  lemma {:induction false} EditSurvivesExactly(c: Cycle, envs: seq<Env>, end: World, l: SyncAction)
    returns (j: nat, mid: World)
    requires Faithful(c) && ByPriority(c.queue) && |envs| == |c.queue|
    requires forall i :: 0 <= i < |envs| ==> EnvOk(c.ctx, envs[i])
    requires ExecuteAll(c.world, c.queue, envs) == Some(end)
    requires l in c.local && Uploads(l)
    ensures j < |c.queue| && c.queue[j].relativePath == l.relativePath && l.relativePath in c.world.tree.files
    ensures ExecuteAll(c.world, c.queue[..j], envs[..j]) == Some(mid)
    ensures EditKept(c, envs, j, mid, end)
            <==> Spared(c, c.queue[j], CopyPath(mid, c.queue[j], envs[j]), c.world.tree.files[l.relativePath].content)
    ensures c.queue[j].kind == Kind.Conflict && DeletionQueued(c, CopyPath(mid, c.queue[j], envs[j])) ==>
              CopyPath(mid, c.queue[j], envs[j]) !in c.world.tree.files
  {
    hide Faithful, Computed, RemoteActions, KnownPaths, EnvOk, ExecuteAll, Running, CopyPath, DeletionQueued, OwnFile;
    FaithfulParts(c);
    assert IndexOk(c.ctx) by { IndexIsOk(c.ctx); }
    LocalShapeOf(c, l);
    j := EditIsQueued(c, l);
    var a := c.queue[j];
    assert a in c.queue;
    var copies;
    mid, copies := RunFrom(c, envs, end, j);
    ShapesOfRun(c);
    AfterAction(c, envs, j, mid, end, copies);
    RowIsGood(c, envs, end, l.relativePath);
    MergedWith(c, l, a);
    if r :| r in c.remote && r.relativePath == l.relativePath {
      assert forall q :: q in c.remote && q.relativePath == l.relativePath ==> q == r;
      if Fetches(r) { FetchedContent(c, mid, c.queue[j..], envs[j..], end, copies, a, r); }
    }
  }

  lemma ShapesOfRun(c: Cycle)
    requires Faithful(c)
    ensures forall i :: 0 <= i < |c.queue| ==> Shape(c, c.queue[i])
  {
    hide Shape, MergedAt, RemoteActions, LocalExactly;
    forall i | 0 <= i < |c.queue| ensures Shape(c, c.queue[i]) { ShapeOfQueue(c, c.queue[i]); }
  }

  /** At the end the content of the row's Drive file is the content of the path. */
  lemma RowIsGood(c: Cycle, envs: seq<Env>, end: World, path: string)
    requires Faithful(c) && |envs| == |c.queue|
    requires forall i :: 0 <= i < |envs| ==> EnvOk(c.ctx, envs[i])
    requires ExecuteAll(c.world, c.queue, envs) == Some(end)
    ensures path in end.rows ==>
              end.rows[path].driveFileId.Some? && DriveAt(end, end.rows[path].driveFileId.value) == ContentAt(end, path)
  {
    hide Faithful, EnvOk, ExecuteAll, CopiesMade;
    CycleConverges(c, envs, end);
  }

  lemma FetchedContent(c: Cycle, w: World, rest: seq<SyncAction>, envs: seq<Env>, end: World, copies: set<string>,
                       a: SyncAction, r: SyncAction)
    requires |rest| == |envs| && Running(c, w, rest, envs, end, copies) && rest != [] && a == rest[0] && a in c.queue
    requires Faithful(c) && r in c.remote && Fetches(r) && Fetches(a) && RemoteShape(r) && a.driveFile == r.driveFile
    ensures r.driveFile.Some? && DriveAt(w, r.driveFile.value.id) == DriveAt(c.world, r.driveFile.value.id)
  {
    hide Running, RemoteActions, KnownPaths, MergedAt, LocalExactly;
    RemoteFilesExist(c.ctx, c.world, KnownPaths(c.ctx), c.changes);
    ShapeOfQueue(c, a);
    FetchesTheStart(c, w, rest, envs, end, copies, a);
  }

  // ----- conditions that can be read before the cycle runs -----

  /** The remote action that meets an edit, if there is one, keeps its bytes. */
  ghost predicate MeetsNoLoss(c: Cycle, l: SyncAction)
    requires l.relativePath in c.world.tree.files
  {
    forall r :: r in c.remote && r.relativePath == l.relativePath ==>
      r.kind == UpdateDownload || SameOnDrive(c, r, c.world.tree.files[l.relativePath].content)
  }

  ghost predicate EditsMeetNoLoss(c: Cycle) {
    forall l :: l in c.local && Uploads(l) ==> l.relativePath in c.world.tree.files && MeetsNoLoss(c, l)
  }

  /** When every queued deletion is for an ordinary name or for a file that is there, an edit survives exactly
      when no remote action meets it that removes it or puts other content over a new file. */
  lemma {:induction false} OrdinaryEditSurvivesExactly(c: Cycle, envs: seq<Env>, end: World, l: SyncAction)
    returns (j: nat, mid: World)
    requires Faithful(c) && ByPriority(c.queue) && |envs| == |c.queue|
    requires forall i :: 0 <= i < |envs| ==> EnvOk(c.ctx, envs[i])
    requires ExecuteAll(c.world, c.queue, envs) == Some(end)
    requires l in c.local && Uploads(l)
    requires forall a :: a in c.queue && a.kind == DeleteLocal ==>
               a.relativePath in c.world.tree.files || OrdinaryName(a.relativePath)
    ensures j < |c.queue| && c.queue[j].relativePath == l.relativePath && l.relativePath in c.world.tree.files
    ensures ExecuteAll(c.world, c.queue[..j], envs[..j]) == Some(mid)
    ensures EditKept(c, envs, j, mid, end) <==> MeetsNoLoss(c, l)
  {
    hide Faithful, EnvOk, ExecuteAll, CopyPath, EditKept, Contains, IsTmp;
    j, mid := EditSurvivesExactly(c, envs, end, l);
    CopyIsMarked(mid, c.queue[j], envs[j]);
    var copy := CopyPath(mid, c.queue[j], envs[j]);
    UpdateMeansConflict(c, l, c.queue[j]);
    if DeletionQueued(c, copy) {
      var i :| 0 <= i < |c.queue| && c.queue[i].kind == DeleteLocal && c.queue[i].relativePath == copy;
      assert c.queue[i] in c.queue;
    }
  }

  lemma UpdateMeansConflict(c: Cycle, l: SyncAction, a: SyncAction)
    requires Faithful(c) && l in c.local && Uploads(l) && a in c.queue && a.relativePath == l.relativePath
    ensures forall r :: r in c.remote && r.relativePath == l.relativePath && r.kind == UpdateDownload ==>
        a.kind == Kind.Conflict
  {
    hide Computed, IndexFull, ChangeTrue;
    FaithfulParts(c);
    assert IndexOk(c.ctx) by { IndexIsOk(c.ctx); }
    MergedWith(c, l, a);
  }

  /** The edit is kept at the end, wherever in the queue its action is. */
  ghost predicate Kept(c: Cycle, envs: seq<Env>, end: World, l: SyncAction)
    requires |envs| == |c.queue|
  {
    forall j :: 0 <= j < |c.queue| && c.queue[j].relativePath == l.relativePath ==>
      && l.relativePath in c.world.tree.files && ExecuteAll(c.world, c.queue[..j], envs[..j]).Some?
      && EditKept(c, envs, j, ExecuteAll(c.world, c.queue[..j], envs[..j]).value, end)
  }

  /** Every file whose deletion is queued is there when the cycle starts. */
  ghost predicate DeletionsFindTheirFiles(c: Cycle) {
    forall a :: a in c.queue && a.kind == DeleteLocal ==> a.relativePath in c.world.tree.files
  }

  /** The two sides of every conflict really differ. */
  ghost predicate GenuineConflicts(c: Cycle) {
    forall a :: a in c.queue && a.kind == Kind.Conflict && a.driveFile.Some? && a.relativePath in c.world.tree.files ==>
      DriveAt(c.world, a.driveFile.value.id) != Some(c.world.tree.files[a.relativePath].content)
  }

  lemma {:induction false} CopyHasMaker(w: World, actions: seq<SyncAction>, envs: seq<Env>, copy: string)
    returns (i: nat)
    requires |actions| <= |envs| && copy in CopiesMade(w, actions, envs)
    ensures i < |actions| && actions[i].kind == Kind.Conflict
    ensures ExecuteAll(w, actions[..i], envs[..i]).Some?
    ensures copy == CopyPath(ExecuteAll(w, actions[..i], envs[..i]).value, actions[i], envs[i])
    decreases |actions|
  {
    hide Execute, CopyPath;
    if copy in CopyMade(w, actions[0], envs[0]) {
      i := 0;
    } else {
      var next := Execute(w, actions[0], envs[0]).value;
      var m := CopyHasMaker(next, actions[1..], envs[1..], copy);
      i := m + 1;
      assert actions[..i][1..] == actions[1..][..m] && envs[..i][1..] == envs[1..][..m];
    }
  }

  /** A conflict is made of an edit and an update. */
  lemma ConflictHasEdit(c: Cycle, a: SyncAction) returns (l: SyncAction, r: SyncAction)
    requires Faithful(c) && a in c.queue && a.kind == Kind.Conflict
    ensures l in c.local && Uploads(l) && l.relativePath == a.relativePath
    ensures r in c.remote && r.relativePath == a.relativePath && r.kind == UpdateDownload && a.driveFile == r.driveFile
    ensures a.driveFile.Some?
  {
    hide MergedAt, RemoteActions, KnownPaths, LocalActionAt, IndexFull, ChangeTrue;
    FaithfulParts(c);
    MergeIsPointwise(c.local, c.remote, a.relativePath);
    assert IndexOk(c.ctx) by { IndexIsOk(c.ctx); }
    RemoteActionsFit(c.ctx, KnownPaths(c.ctx), c.changes);
    var p := PickAt(c.local, a.relativePath);
    if p.Some? { LocalShapeOf(c, p.value); }
    r :| r in c.remote && r.relativePath == a.relativePath;
    l := p.value;
  }

  /** A cycle that completes although a file deleted on both sides is queued has deleted one of its own conflict
      copies, and the edit in it is lost. */
  lemma MissingFileCostsACopy(c: Cycle, envs: seq<Env>, end: World, m: nat) returns (l: SyncAction)
    requires Faithful(c) && ByPriority(c.queue) && GenuineConflicts(c) && |envs| == |c.queue|
    requires forall i :: 0 <= i < |envs| ==> EnvOk(c.ctx, envs[i])
    requires ExecuteAll(c.world, c.queue, envs) == Some(end)
    requires m < |c.queue| && c.queue[m].kind == DeleteLocal && c.queue[m].relativePath !in c.world.tree.files
    ensures l in c.local && Uploads(l) && !Kept(c, envs, end, l)
  {
    hide Faithful, EnvOk, ExecuteAll, CopyPath, EditKept, Running, CopiesMade, Execute;
    var copy := c.queue[m].relativePath;
    var mid, copies := RunFrom(c, envs, end, m);
    assert c.queue[m..][0] == c.queue[m];
    var next := RunsOn(c, mid, c.queue[m..], envs[m..], end, copies);
    assert envs[m..][0] == envs[m];
    DeletionRunsExactly(c, envs, m, mid);
    var i := CopyHasMaker(c.world, c.queue[..m], envs[..m], copy);
    assert c.queue[..m][i] == c.queue[i] && envs[..m][i] == envs[i];
    assert c.queue[..m][..i] == c.queue[..i] && envs[..m][..i] == envs[..i];
    var r;
    l, r := ConflictHasEdit(c, c.queue[i]);
    var j, before := EditSurvivesExactly(c, envs, end, l);
    assert i == j by { FaithfulParts(c); }
    assert DeletionQueued(c, copy);
  }

  /** Whether every edit of a cycle survives can be told before it runs: exactly when no edit meets a remote
      action that loses it, and every file whose deletion is queued is there to be deleted. */
  lemma {:induction false} AllEditsSurviveExactly(c: Cycle, envs: seq<Env>, end: World)
    requires Faithful(c) && ByPriority(c.queue) && GenuineConflicts(c) && |envs| == |c.queue|
    requires forall i :: 0 <= i < |envs| ==> EnvOk(c.ctx, envs[i])
    requires ExecuteAll(c.world, c.queue, envs) == Some(end)
    ensures (forall l :: l in c.local && Uploads(l) ==> Kept(c, envs, end, l))
            <==> DeletionsFindTheirFiles(c) && EditsMeetNoLoss(c)
  {
    hide Faithful, EnvOk, ExecuteAll, CopyPath, EditKept, CopiesMade;
    forall l | l in c.local && Uploads(l)
      ensures l.relativePath in c.world.tree.files
      ensures Kept(c, envs, end, l) ==> MeetsNoLoss(c, l)
      ensures DeletionsFindTheirFiles(c) && MeetsNoLoss(c, l) ==> Kept(c, envs, end, l)
    {
      OneEdit(c, envs, end, l);
    }
    forall a | a in c.queue && a.kind == DeleteLocal && a.relativePath !in c.world.tree.files
      ensures exists l :: l in c.local && Uploads(l) && !Kept(c, envs, end, l)
    {
      var m :| 0 <= m < |c.queue| && c.queue[m] == a;
      var l := MissingFileCostsACopy(c, envs, end, m);
    }
  }

  lemma OneEdit(c: Cycle, envs: seq<Env>, end: World, l: SyncAction)
    requires Faithful(c) && ByPriority(c.queue) && |envs| == |c.queue|
    requires forall i :: 0 <= i < |envs| ==> EnvOk(c.ctx, envs[i])
    requires ExecuteAll(c.world, c.queue, envs) == Some(end)
    requires l in c.local && Uploads(l)
    ensures l.relativePath in c.world.tree.files
    ensures Kept(c, envs, end, l) ==> MeetsNoLoss(c, l)
    ensures DeletionsFindTheirFiles(c) && MeetsNoLoss(c, l) ==> Kept(c, envs, end, l)
  {
    hide Faithful, EnvOk, ExecuteAll, CopyPath, EditKept;
    var j, mid := EditSurvivesExactly(c, envs, end, l);
    UpdateMeansConflict(c, l, c.queue[j]);
    assert forall i :: 0 <= i < |c.queue| && c.queue[i].relativePath == l.relativePath ==> i == j by {
      FaithfulParts(c);
    }
    var copy := CopyPath(mid, c.queue[j], envs[j]);
    if DeletionQueued(c, copy) {
      var i :| 0 <= i < |c.queue| && c.queue[i].kind == DeleteLocal && c.queue[i].relativePath == copy;
      assert c.queue[i] in c.queue;
    }
  }
}
