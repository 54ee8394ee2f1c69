/** One complete cycle brings both sides together: every row's file has the same content locally and on
    Drive, and the only other files are conflict copies. */
module Convergence {
  import opened Model
  import opened Paths
  import opened LocalFiles
  import opened Actions
  import opened FileStates
  import opened LocalDiff
  import opened RemoteDiff
  import opened Merge
  import opened Executor
  import opened Safety
  import opened Effects

  // ----- names that end in .gds_tmp -----

  predicate IsTmp(path: string) {
    |path| >= |TMP_EXTENSION| && path[|path| - |TMP_EXTENSION|..] == TMP_EXTENSION
  }

  lemma TempPathIsTmp(path: string)
    ensures IsTmp(TempPath(path))
  {
    var temp := TempPath(path);
    var head := path[..NameAt(path)] + FileStem(FileName(path));
    assert temp == head + TMP_EXTENSION;
  }

  /** A stamp in the format year-month-day, dash, hours-minutes-seconds. */
  predicate IsStamp(s: string) { s != "" && forall c :: c in s ==> '0' <= c <= '9' || c == '-' }

  lemma EndsAlike(head: string, tail: string, head2: string)
    requires |tail| >= |TMP_EXTENSION|
    ensures IsTmp(head + tail) <==> IsTmp(head2 + tail)
  {
    var n := |tail| - |TMP_EXTENSION|;
    assert (head + tail)[|head| + n..] == tail[n..] == (head2 + tail)[|head2| + n..];
  }

  lemma DotInside(head: string, tail: string)
    requires 0 < |tail| < |TMP_EXTENSION| && tail[0] == '.'
    ensures !IsTmp(head + tail)
  {
    var p := head + tail;
    var at := |TMP_EXTENSION| - |tail|;
    var n := |TMP_EXTENSION|;
    assert TMP_EXTENSION[at] != '.';
    assert |p| >= n ==> p[|p| - n..][at] == p[|p| - |tail|] == '.';
  }

  lemma DigitAtEnd(p: string)
    requires p != "" && ('0' <= p[|p| - 1] <= '9' || p[|p| - 1] == '-')
    ensures !IsTmp(p)
  {
    var n := |TMP_EXTENSION|;
    assert TMP_EXTENSION[n - 1] == 'p';
    assert |p| >= n ==> p[|p| - n..][n - 1] == p[|p| - 1];
  }

  lemma {:induction false} DecimalEnds(n: nat)
    ensures |Decimal(n)| > 0 && '0' <= Decimal(n)[|Decimal(n)| - 1] <= '9'
  {
  }

  /** The conflict copy of an ordinary file is an ordinary file. */
  lemma ConflictPathNotTmp(path: string, stamp: string, n: nat)
    requires !IsTmp(path) && IsStamp(stamp)
    ensures !IsTmp(ConflictPath(path, stamp, n))
  {
    var name := FileName(path);
    var ext := DotExtension(name);
    var counter := if n <= 1 then "" else "-" + Decimal(n);
    var head := path[..NameAt(path)] + (name + ".conflict-" + stamp + counter);
    assert ConflictPath(path, stamp, n) == head + ext;
    var stem := path[..NameAt(path)] + FileStem(name);
    assert path == stem + ext;
    if |ext| >= |TMP_EXTENSION| {
      EndsAlike(head, ext, stem);
    } else if ext != "" {
      LastDotIsLast(name);
      DotInside(head, ext);
    } else {
      assert head + ext == head;
      DecimalEnds(n);
      assert n > 1 ==> head[|head| - 1] == Decimal(n)[|Decimal(n)| - 1];
      assert stamp[|stamp| - 1] in stamp;
      assert n <= 1 ==> head[|head| - 1] == stamp[|stamp| - 1];
      DigitAtEnd(head);
    }
  }

  // ----- single steps, path by path -----

  function DriveAt(w: World, id: string): Option<Content> {
    if id in w.drive then Some(w.drive[id]) else None
  }

  predicate Fetches(a: SyncAction) { a.kind == NewDownload || a.kind == UpdateDownload || a.kind == Kind.Conflict }

  predicate Uploads(a: SyncAction) { a.kind == NewUpload || a.kind == UpdateUpload }

  /** The file an action leaves at a path. */
  function NewFile(w: World, a: SyncAction, env: Env, p: string): Option<LocalFile>
    requires Ready(w, a, env)
  {
    if p == a.relativePath then
      if Fetches(a) then Some(LocalFile(w.drive[DriveIdOf(a, env)], env.now))
      else if a.kind == DeleteLocal then None
      else FileAt(w, p)
    else if a.kind == Kind.Conflict && p == CopyPath(w, a, env) then
      Some(LocalFile(w.tree.files[a.relativePath].content, env.now))
    else FileAt(w, p)
  }

  ghost predicate NoTmpFiles(w: World) { forall p :: p in w.tree.files ==> !IsTmp(p) }

  /** No temporary file is left, and every other file is as `NewFile` says. */
  lemma FilesAfter(w: World, a: SyncAction, env: Env)
    requires Ready(w, a, env) && NoTmpFiles(w) && !IsTmp(a.relativePath) && IsStamp(env.stamp)
    ensures NoTmpFiles(After(w, a, env))
    ensures forall p :: FileAt(After(w, a, env), p) == NewFile(w, a, env, p)
    ensures a.kind == Kind.Conflict ==> CopyPath(w, a, env) != a.relativePath && CopyPath(w, a, env) !in w.tree.files
  {
    hide IsTmp, TempPath, Parent, StateAfter;
    TempPathIsTmp(a.relativePath);
    if a.kind == Kind.Conflict {
      var existing := w.tree.files.Keys + w.tree.dirs;
      ConflictPathNotTmp(a.relativePath, env.stamp, FirstFree(a.relativePath, env.stamp, existing, 1));
      CopyIsFresh(w, a, env);
      TempPathIsTmp(CopyPath(w, a, env));
    }
  }

  lemma DriveAfter(w: World, a: SyncAction, env: Env)
    requires Ready(w, a, env)
    ensures forall id :: DriveAt(After(w, a, env), id) ==
              if id != DriveIdOf(a, env) then DriveAt(w, id)
              else if Uploads(a) then Some(w.tree.files[a.relativePath].content)
              else if a.kind == DeleteRemote then None
              else DriveAt(w, id)
  {
    hide CopyPath, StateAfter;
  }

  // ----- a cycle and what it starts from -----

  /** A cycle: the world it starts in, the table as it was read, the changes fetched, the actions that the
      local and the remote comparison found, and the queue. */
  datatype Cycle = Cycle(world: World, ctx: Context, changes: seq<DriveChange>,
                         local: seq<SyncAction>, remote: seq<SyncAction>, queue: seq<SyncAction>)

  /** The queue holds what walk, comparison and merge give, in any order. */
  ghost predicate Computed(c: Cycle) {
    && c.ctx.rows == c.world.rows
    && LocalExactly(c.world.tree, c.ctx.rows, c.local)
    && c.remote == RemoteActions(c.ctx, KnownPaths(c.ctx), c.changes)
    && DistinctPaths(c.queue)
    && (forall a :: a in c.queue <==> MergedAt(c.local, c.remote, a.relativePath) == Some(a))
  }

  /** The index by Drive id holds every row that has one. */
  ghost predicate IndexFull(ctx: Context) {
    && IndexOk(ctx)
    && (forall p :: p in ctx.rows && ctx.rows[p].driveFileId.Some? ==>
          ctx.rows[p].driveFileId.value in ctx.byId && ctx.byId[ctx.rows[p].driveFileId.value] == ctx.rows[p])
  }

  /** The change says what is on Drive now. */
  ghost predicate ChangeTrue(w: World, ch: DriveChange) {
    && (ch.removed == Some(true) ==> ch.fileId !in w.drive)
    && (Live(ch) ==> ch.file.value.id == ch.fileId && ch.fileId in w.drive
                     && ch.file.value.md5Checksum == Some(Md5(w.drive[ch.fileId])))
  }

  /** The row has a Drive file, its two hashes are of one common content, and if that is not what Drive has
      now, the changes say so. */
  ghost predicate RowTrue(c: Cycle, s: FileState) {
    && s.driveFileId.Some? && s.localMd5.Some? && s.localMd5 == s.driveMd5
    && (|| DriveAt(c.world, s.driveFileId.value) == Some(s.localMd5.value.of)
        || exists ch :: ch in c.changes && ch.fileId == s.driveFileId.value && (Live(ch) || ch.removed == Some(true)))
  }

  /** What convergence asks of the start: true rows and changes, one remote action per path, and ordinary
      files, none of them named like a temporary file. */
  ghost predicate Faithful(c: Cycle) {
    && Computed(c) && IndexFull(c.ctx) && UniqueIds(c.ctx.rows)
    && (forall p :: p in c.ctx.rows ==> RowTrue(c, c.ctx.rows[p]) && !Ignored(p) && p !in c.world.tree.dirs)
    && (forall ch :: ch in c.changes ==> ChangeTrue(c.world, ch))
    && DistinctPaths(c.remote)
    && NoTmpFiles(c.world) && (forall a :: a in c.queue ==> !IsTmp(a.relativePath))
  }

  /** New Drive ids are new, stamps are stamps. */
  ghost predicate EnvOk(ctx: Context, env: Env) { env.newId !in ctx.byId && IsStamp(env.stamp) }

  // ----- what the queue holds -----

  /** A Drive file that a row knows is fetched to the path of that row only. */
  ghost predicate OwnFile(ctx: Context, a: SyncAction) {
    a.driveFile.Some? && a.driveFile.value.id in ctx.byId ==>
        ctx.byId[a.driveFile.value.id].relativePath == a.relativePath
  }

  lemma {:induction false} RemoteOwnFiles(ctx: Context, paths: map<string, string>, changes: seq<DriveChange>)
    requires forall ch :: ch in changes && Live(ch) ==> ch.file.value.id == ch.fileId
    ensures forall a :: a in RemoteActions(ctx, paths, changes) ==> OwnFile(ctx, a)
    decreases |changes|
  {
    if changes != [] {
      assert changes[0] in changes;
      RemoteOwnFiles(ctx, NextPaths(ctx, paths, changes[0]), changes[1..]);
    }
  }

  /** A change of a known file emits its action whatever paths are known. */
  lemma {:induction false} KnownFileEmits(ctx: Context, paths: map<string, string>, changes: seq<DriveChange>,
                                          ch: DriveChange)
    requires ch in changes && ch.fileId in ctx.byId
    ensures forall r :: ActionOf(ctx, paths, ch) == Some(r) ==> r in RemoteActions(ctx, paths, changes)
    decreases |changes|
  {
    var next := NextPaths(ctx, paths, changes[0]);
    assert ActionOf(ctx, next, ch) == ActionOf(ctx, paths, ch);
    if ch != changes[0] { KnownFileEmits(ctx, next, changes[1..], ch); }
  }

  /** The parts an action of the queue carries, by kind. */
  ghost predicate Shape(c: Cycle, a: SyncAction) {
    var p, rows := a.relativePath, c.ctx.rows;
    && OwnFile(c.ctx, a)
    && (Fetches(a) ==> a.driveFile.Some?)
    && (a.kind == NewUpload || a.kind == UpdateUpload || a.kind == Kind.Conflict ==> p in c.world.tree.files)
    && (a.kind == DeleteRemote ==> p !in c.world.tree.files)
    && (a.kind == NewUpload || a.kind == NewDownload ==> p !in rows)
    && (a.kind != NewUpload && a.kind != NewDownload ==> p in rows && a.state == Some(rows[p]))
  }

  lemma ShapeOfQueue(c: Cycle, a: SyncAction)
    requires Computed(c) && IndexOk(c.ctx) && DistinctPaths(c.remote) && a in c.queue
    requires forall ch :: ch in c.changes && Live(ch) ==> ch.file.value.id == ch.fileId
    ensures Shape(c, a)
  {
    hide LocalActionAt, MergedAt, RemoteActions, KnownPaths, OwnFile;
    RemoteOwnFiles(c.ctx, KnownPaths(c.ctx), c.changes);
    RemoteActionsFit(c.ctx, KnownPaths(c.ctx), c.changes);
    MergeIsPointwise(c.local, c.remote, a.relativePath);
    var l := PickAt(c.local, a.relativePath);
    if l.Some? { LocalShapeOf(c, l.value); }
    if r :| r in c.remote && r.relativePath == a.relativePath {
      CombinedShape(c, l, r);
    }
  }

  lemma LocalShapeOf(c: Cycle, l: SyncAction)
    requires Computed(c) && l in c.local
    ensures Shape(c, l) && l.driveFile == None
        && (l.kind == NewUpload || l.kind == UpdateUpload || l.kind == DeleteRemote)
  {
    hide MergedAt, RemoteActions;
    assert LocalActionAt(c.world.tree, c.ctx.rows, l.relativePath) == Some(l);
  }

  lemma CombinedShape(c: Cycle, l: Option<SyncAction>, r: SyncAction)
    requires RemoteFits(c.ctx, r) && OwnFile(c.ctx, r)
    requires l.Some? ==> Shape(c, l.value) && l.value.relativePath == r.relativePath
    ensures Shape(c, Combine(l, r))
  {
  }

  // ----- the invariant of the run -----

  ghost predicate Pending(rest: seq<SyncAction>, path: string) {
    exists i :: 0 <= i < |rest| && rest[i].relativePath == path
  }

  /** No action still to run will change this Drive file. */
  ghost predicate Untargeted(ctx: Context, rest: seq<SyncAction>, id: string) {
    forall i :: 0 <= i < |rest| && rest[i].relativePath in ctx.rows ==>
        ctx.rows[rest[i].relativePath].driveFileId != Some(id)
  }

  /** The row's file is there and has the content of its Drive file. */
  ghost predicate Good(w: World, path: string) {
    && path in w.rows && path in w.tree.files && w.rows[path].driveFileId.Some?
    && DriveAt(w, w.rows[path].driveFileId.value) == Some(w.tree.files[path].content)
  }

  /** A path whose action has not run: its row and its file are those of the start. */
  ghost predicate Untouched(c: Cycle, w: World, path: string, copies: set<string>) {
    && RowAt(w.rows, path) == RowAt(c.ctx.rows, path)
    && (path in c.world.tree.files ==> FileAt(w, path) == FileAt(c.world, path))
    && (path !in c.world.tree.files ==> (path in w.tree.files <==> path in copies))
  }

  /** A path that has no action left: in step, or without a row. */
  ghost predicate Settled(ctx: Context, w: World, rest: seq<SyncAction>, path: string, copies: set<string>) {
    && (path in w.rows ==> Good(w, path) && Untargeted(ctx, rest, w.rows[path].driveFileId.value))
    && (path !in w.rows && path in w.tree.files && !Ignored(path) ==> path in copies)
  }

  /** A Drive file of the start that belongs to no row, or to a row whose action has not run, is as it was. */
  ghost predicate DriveKept(c: Cycle, w: World, rest: seq<SyncAction>) {
    forall id :: id in c.world.drive && (id in c.ctx.byId ==> Pending(rest, c.ctx.byId[id].relativePath)) ==>
      DriveAt(w, id) == DriveAt(c.world, id)
  }

  ghost predicate Inv(c: Cycle, w: World, rest: seq<SyncAction>, copies: set<string>) {
    && UniqueIds(w.rows) && NoTmpFiles(w) && DriveKept(c, w, rest)
    && (forall path :: Pending(rest, path) ==> Untouched(c, w, path, copies))
    && (forall path :: !Pending(rest, path) ==> Settled(c.ctx, w, rest, path, copies))
  }

  /** A path without an action is in step from the start. */
  lemma SettledAtStart(c: Cycle, path: string)
    requires Faithful(c) && !Pending(c.queue, path)
    ensures Settled(c.ctx, c.world, c.queue, path, {})
  {
    NoActionAt(c, path);
    if path in c.ctx.rows {
      assert RowTrue(c, c.ctx.rows[path]) && !Ignored(path) && path !in c.world.tree.dirs;
      InStep(c, path);
      UntargetedAtStart(c, path);
    }
  }

  lemma NoActionAt(c: Cycle, path: string)
    requires Computed(c) && DistinctPaths(c.remote) && !Pending(c.queue, path)
    ensures LocalActionAt(c.world.tree, c.ctx.rows, path) == None
    ensures forall r :: r in c.remote ==> r.relativePath != path
  {
    hide MergedAt, RemoteActions, KnownPaths, LocalActionAt;
    MergeIsPointwise(c.local, c.remote, path);
    MergedIsQueued(c, path);
    LocalActionListed(c, path);
  }

  lemma MergedIsQueued(c: Cycle, path: string)
    requires Computed(c) && DistinctPaths(c.remote)
    ensures MergedAt(c.local, c.remote, path).Some? ==> Pending(c.queue, path)
  {
    hide MergedAt;
    MergeIsPointwise(c.local, c.remote, path);
    var merged := MergedAt(c.local, c.remote, path);
    if merged.Some? {
      assert merged.value.relativePath == path && merged.value in c.queue;
    }
  }

  lemma LocalActionListed(c: Cycle, path: string)
    requires Computed(c)
    ensures var l := LocalActionAt(c.world.tree, c.ctx.rows, path); l.Some? ==>
        l.value in c.local && l.value.relativePath == path
  {
  }

  /** With no action for its path, a row's file equals its Drive file. */
  lemma InStep(c: Cycle, path: string)
    requires IndexFull(c.ctx) && c.ctx.rows == c.world.rows && path in c.ctx.rows && RowTrue(c, c.ctx.rows[path])
    requires !Ignored(path) && path !in c.world.tree.dirs
    requires forall ch :: ch in c.changes ==> ChangeTrue(c.world, ch)
    requires LocalActionAt(c.world.tree, c.ctx.rows, path) == None
    requires c.remote == RemoteActions(c.ctx, KnownPaths(c.ctx), c.changes)
    requires forall r :: r in c.remote ==> r.relativePath != path
    ensures Good(c.world, path)
  {
    var s := c.ctx.rows[path];
    var id := s.driveFileId.value;
    assert c.ctx.byId[id] == s && s.relativePath == path;
    assert path in c.world.tree.files && s.localMd5 == Some(Md5(c.world.tree.files[path].content));
    if ch :| ch in c.changes && ch.fileId == id && (Live(ch) || ch.removed == Some(true)) {
      KnownFileEmits(c.ctx, KnownPaths(c.ctx), c.changes, ch);
      QuietChange(c.ctx, KnownPaths(c.ctx), ch);
      assert ChangeTrue(c.world, ch);
    }
  }

  /** A change of a known file that emits nothing brings the hash the row has. */
  lemma QuietChange(ctx: Context, paths: map<string, string>, ch: DriveChange)
    requires IndexOk(ctx) && ch.fileId in ctx.byId && (Live(ch) || ch.removed == Some(true))
    ensures match ActionOf(ctx, paths, ch)
            case Some(r) => r.relativePath == ctx.byId[ch.fileId].relativePath
            case None => Live(ch) && ch.file.value.md5Checksum == ctx.byId[ch.fileId].driveMd5
  {
  }

  lemma UntargetedAtStart(c: Cycle, path: string)
    requires IndexFull(c.ctx) && path in c.ctx.rows && c.ctx.rows[path].driveFileId.Some? && !Pending(c.queue, path)
    ensures Untargeted(c.ctx, c.queue, c.ctx.rows[path].driveFileId.value)
  {
  }

  lemma InvAtStart(c: Cycle)
    requires Faithful(c)
    ensures Inv(c, c.world, c.queue, {})
  {
    forall path | !Pending(c.queue, path) ensures Settled(c.ctx, c.world, c.queue, path, {}) {
      SettledAtStart(c, path);
    }
  }

  // ----- one action keeps the invariant -----

  /** What one completed action changes, path by path and id by id. */
  ghost predicate Stepped(w: World, a: SyncAction, env: Env, next: World) {
    && Ready(w, a, env) && UniqueIds(next.rows) && NoTmpFiles(next)
    && RowDone(next.rows, a, env)
    && (forall p :: p != a.relativePath ==> RowAt(next.rows, p) == RowAt(w.rows, p))
    && (forall p :: FileAt(next, p) == NewFile(w, a, env, p))
    && (a.kind == Kind.Conflict ==> CopyPath(w, a, env) != a.relativePath && CopyPath(w, a, env) !in w.tree.files)
    && (forall id :: DriveAt(next, id) ==
          if id != DriveIdOf(a, env) then DriveAt(w, id)
          else if Uploads(a) then Some(w.tree.files[a.relativePath].content)
          else if a.kind == DeleteRemote then None
          else DriveAt(w, id))
  }

  lemma ExecuteSteps(w: World, a: SyncAction, env: Env, next: World)
    requires Execute(w, a, env) == Some(next) && UniqueIds(w.rows) && NoTmpFiles(w) && Fits(w.rows, a)
    requires !IsTmp(a.relativePath) && IsStamp(env.stamp)
    ensures Stepped(w, a, env, next)
  {
    hide Execute, After, CopyPath, NewRow, IsTmp, Ready, NewFile, IsStamp;
    ExecuteIsOneStep(w, a, env, next);
    RowsAfterOne(w, a, env, next);
    FilesAfter(w, a, env);
    DriveAfter(w, a, env);
  }

  function CopyMade(w: World, a: SyncAction, env: Env): set<string> {
    if a.kind == Kind.Conflict then {CopyPath(w, a, env)} else {}
  }

  /** Another path of the queue stays untouched. */
  lemma StaysUntouched(c: Cycle, w: World, a: SyncAction, env: Env, next: World, path: string, copies: set<string>)
    requires Stepped(w, a, env, next) && path != a.relativePath && Untouched(c, w, path, copies)
    ensures Untouched(c, next, path, copies + CopyMade(w, a, env))
  {
    hide CopyPath, NewRow;
    assert FileAt(next, path) == NewFile(w, a, env, path);
  }

  /** A path that is done stays in step. */
  lemma StaysSettled(c: Cycle, w: World, rest: seq<SyncAction>, env: Env, next: World, path: string,
                     copies: set<string>)
    requires rest != [] && Stepped(w, rest[0], env, next) && Shape(c, rest[0]) && path != rest[0].relativePath
    requires Settled(c.ctx, w, rest, path, copies)
    ensures Settled(c.ctx, next, rest[1..], path, copies + CopyMade(w, rest[0], env))
  {
    hide CopyPath, NewRow, OwnFile;
    var a := rest[0];
    assert RowAt(next.rows, path) == RowAt(w.rows, path);
    assert FileAt(next, path) == NewFile(w, a, env, path);
    if path in w.rows {
      var id := w.rows[path].driveFileId.value;
      assert DriveAt(next, id) == DriveAt(w, id);
      assert forall i :: 0 <= i < |rest[1..]| ==> rest[1..][i] == rest[i + 1];
    }
  }

  /** The path of the action that ran is in step. */
  lemma BecomesSettled(c: Cycle, w: World, rest: seq<SyncAction>, env: Env, next: World, copies: set<string>)
    requires rest != [] && Stepped(w, rest[0], env, next) && Shape(c, rest[0]) && DistinctPaths(rest)
    requires IndexFull(c.ctx) && EnvOk(c.ctx, env)
    requires Untouched(c, w, rest[0].relativePath, copies)
    ensures Settled(c.ctx, next, rest[1..], rest[0].relativePath, copies + CopyMade(w, rest[0], env))
  {
    hide CopyPath, IsStamp;
    var a := rest[0];
    var path := a.relativePath;
    assert FileAt(next, path) == NewFile(w, a, env, path);
    assert RowAt(next.rows, path) == NewRow(a, env);
    if !Deletes(a) {
      var id := DriveIdOf(a, env);
      assert next.rows[path].driveFileId == Some(id);
      NotTargeted(c, rest, env, id);
    }
  }

  lemma NotTargeted(c: Cycle, rest: seq<SyncAction>, env: Env, id: string)
    requires rest != [] && Shape(c, rest[0]) && DistinctPaths(rest) && !Deletes(rest[0])
    requires IndexFull(c.ctx) && EnvOk(c.ctx, env) && id == DriveIdOf(rest[0], env)
    requires rest[0].kind == UpdateUpload ==> DriveIdOfRow(rest[0]) == id && rest[0].state.value.driveFileId == Some(id)
    ensures Untargeted(c.ctx, rest[1..], id)
  {
    forall i | 0 <= i < |rest[1..]| && rest[1..][i].relativePath in c.ctx.rows
      ensures c.ctx.rows[rest[1..][i].relativePath].driveFileId != Some(id)
    {
      assert rest[1..][i] == rest[i + 1];
    }
  }

  lemma PendingShifts(rest: seq<SyncAction>, path: string)
    requires rest != [] && DistinctPaths(rest)
    ensures Pending(rest[1..], path) <==> Pending(rest, path) && path != rest[0].relativePath
  {
    var tail := rest[1..];
    if Pending(tail, path) {
      var i :| 0 <= i < |tail| && tail[i].relativePath == path;
      assert rest[i + 1] == tail[i];
    }
    if Pending(rest, path) && path != rest[0].relativePath {
      var i :| 0 <= i < |rest| && rest[i].relativePath == path;
      assert tail[i - 1] == rest[i];
    }
  }

  lemma StepKeepsInv(c: Cycle, w: World, rest: seq<SyncAction>, env: Env, next: World, copies: set<string>)
    requires Inv(c, w, rest, copies) && rest != [] && DistinctPaths(rest)
    requires Stepped(w, rest[0], env, next) && Shape(c, rest[0])
    requires IndexFull(c.ctx) && EnvOk(c.ctx, env)
    ensures Inv(c, next, rest[1..], copies + CopyMade(w, rest[0], env))
  {
    hide Stepped, Shape, IndexFull, EnvOk, Untouched, Settled, CopyMade, DriveKept;
    assert UniqueIds(next.rows) && NoTmpFiles(next) by { SteppedIsTidy(w, rest[0], env, next); }
    DriveStaysKept(c, w, rest, env, next);
    var made := copies + CopyMade(w, rest[0], env);
    assert Pending(rest, rest[0].relativePath);
    forall path | Pending(rest[1..], path) ensures Untouched(c, next, path, made) {
      PendingShifts(rest, path);
      StaysUntouched(c, w, rest[0], env, next, path, copies);
    }
    forall path | !Pending(rest[1..], path) ensures Settled(c.ctx, next, rest[1..], path, made) {
      PendingShifts(rest, path);
      if path == rest[0].relativePath {
        BecomesSettled(c, w, rest, env, next, copies);
      } else {
        StaysSettled(c, w, rest, env, next, path, copies);
      }
    }
  }

  lemma DriveStaysKept(c: Cycle, w: World, rest: seq<SyncAction>, env: Env, next: World)
    requires DriveKept(c, w, rest) && rest != [] && DistinctPaths(rest)
    requires Stepped(w, rest[0], env, next) && Shape(c, rest[0]) && IndexFull(c.ctx)
    ensures DriveKept(c, next, rest[1..])
  {
    hide NewRow, NewFile, CopyPath, OwnFile, Pending;
    var a := rest[0];
    assert a.kind == UpdateUpload || a.kind == DeleteRemote ==>
             c.ctx.rows[a.relativePath].driveFileId == Some(DriveIdOf(a, env));
    forall id | id in c.world.drive && (id in c.ctx.byId ==> Pending(rest[1..], c.ctx.byId[id].relativePath))
      ensures DriveAt(next, id) == DriveAt(c.world, id)
    {
      if id in c.ctx.byId { PendingShifts(rest, c.ctx.byId[id].relativePath); }
      assert DriveAt(w, id) == DriveAt(c.world, id);
    }
  }

  lemma SteppedIsTidy(w: World, a: SyncAction, env: Env, next: World)
    requires Stepped(w, a, env, next)
    ensures UniqueIds(next.rows) && NoTmpFiles(next)
  {
  }

  // ----- the whole cycle -----

  /** The conflict copies a run makes. */
  function CopiesMade(w: World, actions: seq<SyncAction>, envs: seq<Env>): set<string>
    requires |actions| <= |envs|
    decreases |actions|
  {
    if actions == [] then {}
    else
      CopyMade(w, actions[0], envs[0])
      + match Execute(w, actions[0], envs[0])
        case None => {}
        case Some(next) => CopiesMade(next, actions[1..], envs[1..])
  }

  /** Running the first `n` actions. */
  lemma {:induction false} RunKeepsInv(c: Cycle, w: World, rest: seq<SyncAction>, envs: seq<Env>, n: nat, mid: World,
                                       copies: set<string>)
    requires Inv(c, w, rest, copies) && DistinctPaths(rest) && IndexFull(c.ctx) && n <= |rest| == |envs|
    requires forall i :: 0 <= i < |rest| ==> Shape(c, rest[i]) && !IsTmp(rest[i].relativePath)
    requires forall i :: 0 <= i < |envs| ==> EnvOk(c.ctx, envs[i])
    requires ExecuteAll(w, rest[..n], envs[..n]) == Some(mid)
    ensures Inv(c, mid, rest[n..], copies + CopiesMade(w, rest[..n], envs[..n]))
    decreases n
  {
    hide Inv, Execute, Shape, IndexFull, CopyMade, IsTmp, EnvOk;
    if n == 0 {
      assert copies + {} == copies;
    } else {
      var next := Execute(w, rest[0], envs[0]).value;
      var made := CopyMade(w, rest[0], envs[0]);
      var tail, tailEnvs := rest[1..], envs[1..];
      assert rest[..n][1..] == tail[..n - 1] && envs[..n][1..] == tailEnvs[..n - 1] && rest[n..] == tail[n - 1..];
      FirstSteps(c, w, rest, envs[0], next, copies);
      StepKeepsInv(c, w, rest, envs[0], next, copies);
      RunKeepsInv(c, next, tail, tailEnvs, n - 1, mid, copies + made);
      var later := CopiesMade(next, tail[..n - 1], tailEnvs[..n - 1]);
      assert copies + made + later == copies + (made + later);
    }
  }

  lemma FirstSteps(c: Cycle, w: World, rest: seq<SyncAction>, env: Env, next: World, copies: set<string>)
    requires Inv(c, w, rest, copies) && rest != [] && Shape(c, rest[0]) && !IsTmp(rest[0].relativePath)
    requires EnvOk(c.ctx, env) && Execute(w, rest[0], env) == Some(next)
    ensures Stepped(w, rest[0], env, next)
  {
    hide Execute, Stepped, IsTmp, OwnFile;
    assert Pending(rest, rest[0].relativePath);
    assert Untouched(c, w, rest[0].relativePath, copies);
    ExecuteSteps(w, rest[0], env, next);
  }

  /** Both sides agree: every row's file exists and has the content of its Drive file, and every other file
      that is not ignored is one of the copies. */
  ghost predicate Converged(w: World, copies: set<string>) {
    && (forall p :: p in w.rows ==> Good(w, p))
    && (forall p :: p in w.tree.files && p !in w.rows && !Ignored(p) ==> p in copies)
  }

  /** The invariant after the first `n` actions of a cycle with a faithful start. */
  lemma InvAfter(c: Cycle, envs: seq<Env>, n: nat, mid: World)
    requires Faithful(c) && n <= |c.queue| == |envs|
    requires forall i :: 0 <= i < |envs| ==> EnvOk(c.ctx, envs[i])
    requires ExecuteAll(c.world, c.queue[..n], envs[..n]) == Some(mid)
    ensures Inv(c, mid, c.queue[n..], CopiesMade(c.world, c.queue[..n], envs[..n]))
    ensures forall i :: 0 <= i < |c.queue| ==> Shape(c, c.queue[i]) && !IsTmp(c.queue[i].relativePath)
  {
    hide Shape, IsTmp, Execute, Settled, Untouched;
    InvAtStart(c);
    forall i | 0 <= i < |c.queue| ensures Shape(c, c.queue[i]) && !IsTmp(c.queue[i].relativePath) {
      ShapeOfQueue(c, c.queue[i]);
    }
    RunKeepsInv(c, c.world, c.queue, envs, n, mid, {});
    var copies := CopiesMade(c.world, c.queue[..n], envs[..n]);
    assert {} + copies == copies;
  }

  /** From a faithful start, a cycle that runs to its end without pause ends with both sides in step, and
      every file without a row is a conflict copy made in this cycle. */
  lemma {:induction false} CycleConverges(c: Cycle, envs: seq<Env>, end: World)
    requires Faithful(c) && |envs| == |c.queue|
    requires forall i :: 0 <= i < |envs| ==> EnvOk(c.ctx, envs[i])
    requires ExecuteAll(c.world, c.queue, envs) == Some(end)
    ensures Converged(end, CopiesMade(c.world, c.queue, envs))
  {
    hide Shape, IsTmp, Execute, Settled, Faithful, Untouched;
    var n := |c.queue|;
    assert c.queue[..n] == c.queue && envs[..n] == envs && c.queue[n..] == [];
    InvAfter(c, envs, n, end);
    var copies := CopiesMade(c.world, c.queue, envs);
    forall p ensures Settled(c.ctx, end, [], p, copies) {
      assert !Pending([], p);
    }
    SettledConverges(c.ctx, end, copies);
  }

  lemma SettledConverges(ctx: Context, w: World, copies: set<string>)
    requires forall p :: Settled(ctx, w, [], p, copies)
    ensures Converged(w, copies)
  {
    forall p | p in w.rows ensures Good(w, p) { assert Settled(ctx, w, [], p, copies); }
    forall p | p in w.tree.files && p !in w.rows && !Ignored(p) ensures p in copies {
      assert Settled(ctx, w, [], p, copies);
    }
  }
}
