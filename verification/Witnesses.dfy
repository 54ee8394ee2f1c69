/** Concrete cycles in which the engine falls short of its intent. Each is an ordinary one in every other respect. */
module Witnesses {
  import opened Model
  import opened Paths
  import opened LocalFiles
  import opened Actions
  import opened FileStates
  import opened LocalDiff
  import opened RemoteDiff
  import opened Merge
  import opened Executor
  import opened Safety
  import opened Effects
  import opened Convergence
  import opened Resume
  import opened Cycles
  import opened Losses
  import opened Edits
  import opened Iteration
  import opened Completion
  import opened Landing
  import opened NextCycle

  // ----- actions in a folder without directories -----

  lemma InRoot(path: string)
    requires NameAt(path) == 0
    ensures Parent(path) == ""
  {
  }

  lemma SiblingInRoot(path: string, name: string)
    requires NameAt(path) == 0 && '/' !in name
    ensures NameAt(Sibling(path, name)) == 0
  {
    SiblingName(path, name);
  }

  lemma FlatWrite(w: World, path: string)
    requires w.tree.dirs == {} && NameAt(path) == 0
    ensures CanWrite(w, path)
    ensures forall content, now :: WithFile(w, path, content, now).tree.dirs == {}
  {
    hide TempPath, NameAt;
    InRoot(path);
    var none := Ancestors("");
    assert none == {} && w.tree.dirs + none == {};
  }

  /** In a folder without directories a fetch or a local deletion runs to its end. */
  lemma RunsInFlatFolder(w: World, a: SyncAction, env: Env)
    requires w.tree.dirs == {} && NameAt(a.relativePath) == 0 && '/' !in env.stamp && Ready(w, a, env)
    requires a.kind == DeleteLocal || (Fetches(a) && IdIsFree(w.rows, StateAfter(a, env)))
    ensures Execute(w, a, env) == Some(After(w, a, env))
    ensures After(w, a, env).tree.dirs == {}
  {
    hide Execute, IdIsFree, StateAfter, CanWrite, CopyPath, WithFile, NameAt;
    FlatWrite(w, a.relativePath);
    if a.kind == Kind.Conflict {
      CopyInRoot(w, a, env);
      FlatWrite(w, CopyPath(w, a, env));
      FlatWrite(Copied(w, a, env), a.relativePath);
    }
    GoesThrough(w, a, env);
  }

  lemma CopyInRoot(w: World, a: SyncAction, env: Env)
    requires NameAt(a.relativePath) == 0 && '/' !in env.stamp
    ensures NameAt(CopyPath(w, a, env)) == 0
  {
    var n := FirstFree(a.relativePath, env.stamp, w.tree.files.Keys + w.tree.dirs, 1);
    DecimalHasNoSlash(n);
    SiblingInRoot(a.relativePath, ConflictName(FileName(a.relativePath), env.stamp, n));
  }

  // ----- the queue of a small cycle -----

  /** What the merge gives for a path when every list has one action per path. */
  ghost predicate QueuedRight(c: Cycle, a: SyncAction) {
    if exists r :: r in c.remote && r.relativePath == a.relativePath
    then exists r ::
           && r in c.remote && r.relativePath == a.relativePath
           && a == Combine(PickAt(c.local, a.relativePath), r)
    else a in c.local
  }

  lemma QueueIsComputed(c: Cycle)
    requires c.ctx.rows == c.world.rows && LocalExactly(c.world.tree, c.ctx.rows, c.local)
    requires c.remote == RemoteActions(c.ctx, KnownPaths(c.ctx), c.changes) && DistinctPaths(c.remote)
        && DistinctPaths(c.queue)
    requires forall a :: a in c.queue ==> QueuedRight(c, a)
    requires forall l :: l in c.local ==> exists a :: a in c.queue && a.relativePath == l.relativePath
    requires forall r :: r in c.remote ==> exists a :: a in c.queue && a.relativePath == r.relativePath
    ensures Computed(c)
  {
    hide MergedAt, RemoteActions, KnownPaths, LocalActionAt;
    forall a ensures a in c.queue <==> MergedAt(c.local, c.remote, a.relativePath) == Some(a) {
      MergeIsPointwise(c.local, c.remote, a.relativePath);
      if a in c.queue { MergedIsRight(c, a); }
      if MergedAt(c.local, c.remote, a.relativePath) == Some(a) {
        var b :| b in c.queue && b.relativePath == a.relativePath;
        MergedIsRight(c, b);
      }
    }
  }

  lemma MergedIsRight(c: Cycle, a: SyncAction)
    requires DistinctPaths(c.local) && DistinctPaths(c.remote) && QueuedRight(c, a)
    ensures MergedAt(c.local, c.remote, a.relativePath) == Some(a)
  {
    hide MergedAt;
    MergeIsPointwise(c.local, c.remote, a.relativePath);
  }

  lemma OneOrTwoRemote(ctx: Context, changes: seq<DriveChange>)
    requires |changes| == 1 || |changes| == 2
    ensures var known := KnownPaths(ctx);
      RemoteActions(ctx, known, changes) == Emit(ActionOf(ctx, known, changes[0]))
        + if |changes| == 1 then [] else Emit(ActionOf(ctx, NextPaths(ctx, known, changes[0]), changes[1]))
  {
    hide ActionOf, NextPaths, KnownPaths;
    if |changes| == 1 {
      assert changes == [changes[0]];
      OneRemote(ctx, KnownPaths(ctx), changes[0]);
    } else {
      assert changes[1..] == [changes[1]];
      OneRemote(ctx, NextPaths(ctx, KnownPaths(ctx), changes[0]), changes[1]);
    }
  }

  /** An ordinary name in the sync folder itself. */
  predicate PlainName(path: string) { NameAt(path) == 0 && OrdinaryName(path) && !Ignored(path) }

  function FileOf(id: string, name: string, parent: string, content: Content): DriveFile {
    DriveFile(id, name, Some(Md5(content)), Some(0), Some([parent]), None)
  }

  function Changed(file: DriveFile): DriveChange { DriveChange(file.id, Some(file), None) }

  function Removed(id: string): DriveChange { DriveChange(id, None, Some(true)) }

  /** The row of a file whose last common content is known. */
  function RowFor(id: string, path: string, driveId: string, content: Content): FileState {
    FileState(id, path, Some(driveId), Some(Md5(content)), Some(0), Some(Md5(content)), Some(0),
        SyncState(Synced, None), Some(0))
  }

  function SomeEnv(path: string): Env { Env(0, "0", "new-row", "new-file", FileOf("new-file", path, "root", [])) }

  /** The bytes are in no local file and in no Drive file. */
  ghost predicate Nowhere(w: World, bytes: Content) {
    (forall p :: ContentAt(w, p) != Some(bytes)) && (forall id :: DriveAt(w, id) != Some(bytes))
  }

  // ----- a new file on both sides -----

  function TwinCycle(path: string, local: Content, server: Content): Cycle {
    var file := FileOf("f", path, "root", server);
    Cycle(World(Tree(map[path := LocalFile(local, 0)], {}), map["f" := server], map[]),
          Context(map[], map[], "root"), [Changed(file)],
          [NewUploadOf(path, Md5(local), 0)], [NewDownloadOf(path, file)], [NewDownloadOf(path, file)])
  }

  lemma TwinIsOrdinary(path: string, local: Content, server: Content)
    requires PlainName(path)
    ensures Faithful(TwinCycle(path, local, server)) && ByPriority(TwinCycle(path, local, server).queue)
  {
    hide RemoteActions, MergedAt, NameAt, IsTmp, Ignored, Contains;
    var c := TwinCycle(path, local, server);
    OneOrTwoRemote(c.ctx, c.changes);
    assert PickAt(c.local, path) == Some(c.local[0]);
    assert c.local[0] in c.local && c.remote[0] in c.remote && c.queue[0] in c.queue;
    assert QueuedRight(c, c.queue[0]);
    QueueIsComputed(c);
  }

  /** A new local file and a new Drive file of the same name: the local bytes are gone, without a copy. */
  lemma TwinLosesBytes(path: string, local: Content, server: Content) returns (end: World)
    requires PlainName(path) && local != server
    ensures var c := TwinCycle(path, local, server);
      Faithful(c) && ByPriority(c.queue) && ExecuteAll(c.world, c.queue, [SomeEnv(path)]) == Some(end)
    ensures ContentAt(TwinCycle(path, local, server).world, path) == Some(local) && Nowhere(end, local)
  {
    hide NameAt, OrdinaryName, Ignored, Execute, StateAfter, TempPath, Parent, Faithful;
    var c := TwinCycle(path, local, server);
    TwinIsOrdinary(path, local, server);
    RunsInFlatFolder(c.world, c.queue[0], SomeEnv(path));
    end := After(c.world, c.queue[0], SomeEnv(path));
    OneExecuted(c.world, c.queue[0], SomeEnv(path), end);
  }

  lemma OneExecuted(w: World, a: SyncAction, env: Env, end: World)
    requires Execute(w, a, env) == Some(end)
    ensures ExecuteAll(w, [a], [env]) == Some(end)
  {
    hide Execute;
    var actions, envs := [a], [env];
    assert actions[1..] == [] && envs[1..] == [];
    assert ExecuteAll(end, actions[1..], envs[1..]) == Some(end);
  }


  // ----- an edit and a removal -----

  function RemovedCycle(path: string, edited: Content, common: Content): Cycle {
    var row := RowFor("r", path, "f", common);
    Cycle(World(Tree(map[path := LocalFile(edited, 0)], {}), map[], map[path := row]),
          Context(map[path := row], map["f" := row], "root"), [Removed("f")],
          [UpdateUploadOf(path, row, Md5(edited), 0)], [DeleteLocalOf(path, row)], [DeleteLocalOf(path, row)])
  }

  lemma RemovedIsOrdinary(path: string, edited: Content, common: Content)
    requires PlainName(path) && edited != common
    ensures var c := RemovedCycle(path, edited, common); Faithful(c) && ByPriority(c.queue)
  {
    hide RemoteActions, MergedAt, NameAt, IsTmp, Ignored, Contains, KnownPaths, PickAt;
    var c := RemovedCycle(path, edited, common);
    OneOrTwoRemote(c.ctx, c.changes);
    assert PickAt(c.local, path) == Some(c.local[0]);
    assert c.local[0] in c.local && c.remote[0] in c.remote && c.queue[0] in c.queue && c.changes[0] in c.changes;
    assert QueuedRight(c, c.queue[0]);
    QueueIsComputed(c);
  }

  /** A local edit that meets a removal on Drive is deleted. */
  lemma RemovalLosesBytes(path: string, edited: Content, common: Content) returns (end: World)
    requires PlainName(path) && edited != common
    ensures var c := RemovedCycle(path, edited, common);
      Faithful(c) && ByPriority(c.queue) && ExecuteAll(c.world, c.queue, [SomeEnv(path)]) == Some(end)
    ensures ContentAt(RemovedCycle(path, edited, common).world, path) == Some(edited) && Nowhere(end, edited)
  {
    hide NameAt, OrdinaryName, Ignored, Execute, StateAfter, TempPath, Parent, Faithful;
    var c := RemovedCycle(path, edited, common);
    RemovedIsOrdinary(path, edited, common);
    RunsInFlatFolder(c.world, c.queue[0], SomeEnv(path));
    end := After(c.world, c.queue[0], SomeEnv(path));
    OneExecuted(c.world, c.queue[0], SomeEnv(path), end);
  }

  // ----- a file deleted on both sides -----

  function GoneCycle(path: string, common: Content): Cycle {
    var row := RowFor("r", path, "f", common);
    Cycle(World(Tree(map[], {}), map[], map[path := row]),
          Context(map[path := row], map["f" := row], "root"), [Removed("f")],
          [DeleteRemoteOf(path, row)], [DeleteLocalOf(path, row)], [DeleteLocalOf(path, row)])
  }

  /** A file deleted on both sides: the cycle is ordinary, and cannot complete. */
  lemma GoneNeverCompletes(path: string, common: Content, env: Env)
    requires PlainName(path)
    ensures var c := GoneCycle(path, common);
      && Faithful(c) && ByPriority(c.queue) && WellRead(c) && DeletedOnBothSides(c, path)
      && ExecuteAll(c.world, c.queue, [env]) == None
  {
    hide RemoteActions, MergedAt, NameAt, IsTmp, Ignored, Contains, Execute;
    var c := GoneCycle(path, common);
    OneOrTwoRemote(c.ctx, c.changes);
    assert PickAt(c.local, path) == Some(c.local[0]);
    assert c.local[0] in c.local && c.remote[0] in c.remote && c.queue[0] in c.queue && c.changes[0] in c.changes;
    assert QueuedRight(c, c.queue[0]);
    QueueIsComputed(c);
    assert Execute(c.world, c.queue[0], env) == None by {
      if Execute(c.world, c.queue[0], env).Some? { DeletionNeedsTheFile(c.world, c.queue[0], env); }
    }
  }

  // ----- a second remote action on a path -----

  /** Both the file of the row and an unknown file of the same name have changed on Drive. */
  function SecondCycle(path: string, edited: Content, common: Content, server: Content, other: Content): Cycle {
    var row := RowFor("r", path, "f", common);
    var file, twin := FileOf("f", path, "root", server), FileOf("g", path, "root", other);
    Cycle(World(Tree(map[path := LocalFile(edited, 0)], {}), map["f" := server, "g" := other], map[path := row]),
          Context(map[path := row], map["f" := row], "root"), [Changed(file), Changed(twin)],
          [UpdateUploadOf(path, row, Md5(edited), 0)],
          [UpdateDownloadOf(path, row, file), UpdateDownloadOf(path, row, twin)],
          [UpdateDownloadOf(path, row, twin)])
  }

  lemma TwoAtOnePath(l: SyncAction, first: SyncAction, second: SyncAction, path: string)
    requires l.relativePath == first.relativePath == second.relativePath
    requires first.kind == UpdateDownload && second.kind == UpdateDownload
    ensures MergedAt([l], [first, second], path) == if path == l.relativePath then Some(second) else None
    ensures MergedAt([l], [first], path) == if path == l.relativePath then Some(Combine(Some(l), first)) else None
  {
    var local, both, one := [l], [first, second], [first];
    assert local[..0] == [] && both[1..] == [second] && both[1..][1..] == [] && one[1..] == [];
    assert LastAt(local[..0], path) == None;
    var current := if path == l.relativePath then Some(Combine(Some(l), first)) else None;
    var last := if path == l.relativePath then Some(second) else None;
    var start := LastAt(local, path);
    assert start == if path == l.relativePath then Some(l) else None;
    assert RemoteAt(last, both[1..][1..], path) == last && RemoteAt(current, one[1..], path) == current;
    assert RemoteAt(start, one, path) == RemoteAt(current, one[1..], path);
    var rest := both[1..];
    assert rest[0] == second && RemoteAt(current, rest, path) == RemoteAt(last, rest[1..], path);
    assert RemoteAt(start, both, path) == RemoteAt(current, rest, path);
  }

  lemma SecondRemote(path: string, edited: Content, common: Content, server: Content, other: Content)
    requires server != common && other != common
    ensures var c := SecondCycle(path, edited, common, server, other);
      && c.remote == RemoteActions(c.ctx, KnownPaths(c.ctx), c.changes) && IndexFull(c.ctx)
      && forall ch :: ch in c.changes ==> ChangeTrue(c.world, ch)
  {
    hide RemoteActions;
    var c := SecondCycle(path, edited, common, server, other);
    OneOrTwoRemote(c.ctx, c.changes);
  }

  lemma SecondLocal(path: string, edited: Content, common: Content, server: Content, other: Content)
    requires !Ignored(path) && edited != common
    ensures var c := SecondCycle(path, edited, common, server, other); LocalExactly(c.world.tree, c.ctx.rows, c.local)
  {
    hide Ignored;
    var c := SecondCycle(path, edited, common, server, other);
    assert c.local[0] in c.local;
  }

  lemma SecondIsComputed(path: string, edited: Content, common: Content, server: Content, other: Content)
    requires PlainName(path) && edited != common && server != common && other != common
    ensures var c := SecondCycle(path, edited, common, server, other);
      && Computed(c) && IndexFull(c.ctx) && ByPriority(c.queue)
      && forall ch :: ch in c.changes ==> ChangeTrue(c.world, ch)
  {
    hide RemoteActions, MergedAt, NameAt, OrdinaryName, Ignored, LocalExactly, KnownPaths, IndexFull, ChangeTrue;
    var c := SecondCycle(path, edited, common, server, other);
    SecondRemote(path, edited, common, server, other);
    SecondLocal(path, edited, common, server, other);
    forall a ensures a in c.queue <==> MergedAt(c.local, c.remote, a.relativePath) == Some(a) {
      TwoAtOnePath(c.local[0], c.remote[0], c.remote[1], a.relativePath);
    }
  }

  /** With the first of the two remote actions alone a conflict keeps the edit; the second one replaces the
      conflict, and the edited bytes are gone. */
  lemma SecondActionLosesBytes(path: string, edited: Content, common: Content, server: Content, other: Content)
    returns (end: World)
    requires PlainName(path) && edited != common && server != common && other != common
    requires edited != server && edited != other
    ensures var c := SecondCycle(path, edited, common, server, other);
      && Computed(c) && IndexFull(c.ctx) && ByPriority(c.queue)
      && MergedAt(c.local, c.remote[..1], path).Some?
      && MergedAt(c.local, c.remote[..1], path).value.kind == Kind.Conflict
      && ExecuteAll(c.world, c.queue, [SomeEnv(path)]) == Some(end)
      && ContentAt(c.world, path) == Some(edited) && Nowhere(end, edited)
  {
    hide NameAt, OrdinaryName, Ignored, Execute, StateAfter, TempPath, Parent, MergedAt, Computed;
    var c := SecondCycle(path, edited, common, server, other);
    SecondIsComputed(path, edited, common, server, other);
    assert c.remote[..1] == [c.remote[0]];
    TwoAtOnePath(c.local[0], c.remote[0], c.remote[1], path);
    SameId(c.world.rows, c.queue[0], SomeEnv(path));
    RunsInFlatFolder(c.world, c.queue[0], SomeEnv(path));
    end := After(c.world, c.queue[0], SomeEnv(path));
    OneExecuted(c.world, c.queue[0], SomeEnv(path), end);
  }

  /** An update keeps the id of its row. */
  lemma SameId(rows: States, a: SyncAction, env: Env)
    requires (a.kind == UpdateDownload || a.kind == Kind.Conflict) && a.driveFile.Some? && UniqueIds(rows)
    requires a.relativePath in rows && a.state == Some(rows[a.relativePath])
    ensures IdIsFree(rows, StateAfter(a, env))
  {
  }

  // ----- a conflict copy that is deleted again -----

  /** The name of the first conflict copy with the stamp of `SomeEnv`. */
  function FirstCopy(path: string): string { ConflictPath(path, "0", 1) }

  function CopyCycle(path: string, edited: Content, common: Content, server: Content): Cycle {
    var copy := FirstCopy(path);
    var row, other := RowFor("r", path, "f", common), RowFor("s", copy, "g", common);
    var file := FileOf("f", path, "root", server);
    Cycle(World(Tree(map[path := LocalFile(edited, 0)], {}), map["f" := server], map[path := row, copy := other]),
          Context(map[path := row, copy := other], map["f" := row, "g" := other], "root"),
          [Changed(file), Removed("g")],
          [UpdateUploadOf(path, row, Md5(edited), 0), DeleteRemoteOf(copy, other)],
          [UpdateDownloadOf(path, row, file), DeleteLocalOf(copy, other)],
          [ConflictOf(path, row, file, Md5(edited), 0), DeleteLocalOf(copy, other)])
  }

  lemma FirstCopyIsPlain(path: string)
    requires PlainName(path)
    ensures var copy := FirstCopy(path); copy != path && NameAt(copy) == 0 && !IsTmp(copy) && !Ignored(copy)
  {
    hide IsTmp, OrdinaryName, Ignored, ConflictName, NameAt;
    NotTmp(path);
    var n, stamp := 1, "0";
    assert forall c :: c in stamp ==> c == '0';
    ConflictPathNotTmp(path, stamp, n);
    ConflictPathIsApart(path, stamp, n);
    LongName(path, stamp, n);
    SiblingInRoot(path, ConflictName(FileName(path), stamp, n));
    LongNameIsSeen(FirstCopy(path));
  }

  lemma LongName(path: string, stamp: string, n: nat)
    requires NameAt(path) == 0 && '/' !in stamp
    ensures '/' !in ConflictName(FileName(path), stamp, n) && |ConflictPath(path, stamp, n)| > 8
  {
    DecimalHasNoSlash(n);
  }

  lemma LongNameIsSeen(path: string)
    requires NameAt(path) == 0 && |path| > 8
    ensures !Ignored(path)
  {
    InRoot(path);
    assert FileName(path) == path;
  }

  lemma NotTmp(path: string)
    requires OrdinaryName(path)
    ensures !IsTmp(path)
  {
  }

  lemma CopyCycleRemote(path: string, edited: Content, common: Content, server: Content)
    requires server != common && FirstCopy(path) != path
    ensures var c := CopyCycle(path, edited, common, server);
      c.remote == RemoteActions(c.ctx, KnownPaths(c.ctx), c.changes) && DistinctPaths(c.remote) && IndexFull(c.ctx)
  {
    hide RemoteActions, FirstCopy, IndexFull;
    var c := CopyCycle(path, edited, common, server);
    CopyCycleIndex(path, edited, common, server);
    OneOrTwoRemote(c.ctx, c.changes);
  }

  lemma CopyCycleIndex(path: string, edited: Content, common: Content, server: Content)
    requires FirstCopy(path) != path
    ensures IndexFull(CopyCycle(path, edited, common, server).ctx)
  {
    hide FirstCopy;
  }

  lemma CopyCycleLocal(path: string, edited: Content, common: Content, server: Content)
    requires edited != common && FirstCopy(path) != path && !Ignored(path) && !Ignored(FirstCopy(path))
    ensures var c := CopyCycle(path, edited, common, server); LocalExactly(c.world.tree, c.ctx.rows, c.local)
  {
    hide FirstCopy, Ignored;
    var c := CopyCycle(path, edited, common, server);
    assert c.local[0] in c.local && c.local[1] in c.local;
  }

  lemma CopyCycleIsComputed(path: string, edited: Content, common: Content, server: Content)
    requires PlainName(path) && edited != common && server != common
    ensures var c := CopyCycle(path, edited, common, server); Computed(c) && IndexFull(c.ctx) && DistinctPaths(c.remote)
  {
    hide RemoteActions, NameAt, OrdinaryName, Ignored, FirstCopy, LocalExactly, KnownPaths, IndexFull;
    var c := CopyCycle(path, edited, common, server);
    var copy := FirstCopy(path);
    FirstCopyIsPlain(path);
    CopyCycleRemote(path, edited, common, server);
    CopyCycleLocal(path, edited, common, server);
    LocalHasPaths(c, path, copy);
    assert c.remote[0] in c.remote && c.remote[1] in c.remote && c.queue[0] in c.queue && c.queue[1] in c.queue;
    assert QueuedRight(c, c.queue[0]) && QueuedRight(c, c.queue[1]);
    QueueIsComputed(c);
  }

  lemma LocalHasPaths(c: Cycle, path: string, copy: string)
    requires |c.local| == 2 && c.local[0].relativePath == path && c.local[1].relativePath == copy && path != copy
    ensures PickAt(c.local, path) == Some(c.local[0]) && PickAt(c.local, copy) == Some(c.local[1])
  {
    assert c.local[0] in c.local && c.local[1] in c.local;
  }

  lemma CopyRowsAreTrue(path: string, edited: Content, common: Content, server: Content)
    requires server != common && FirstCopy(path) != path && !Ignored(path) && !Ignored(FirstCopy(path))
    ensures var c := CopyCycle(path, edited, common, server);
      && (forall p :: p in c.ctx.rows ==> RowTrue(c, c.ctx.rows[p]) && !Ignored(p) && p !in c.world.tree.dirs)
      && (forall ch :: ch in c.changes ==> ChangeTrue(c.world, ch)) && UniqueIds(c.ctx.rows)
  {
    hide FirstCopy, Ignored;
    var c := CopyCycle(path, edited, common, server);
    assert c.changes[0] in c.changes && c.changes[1] in c.changes;
  }

  lemma CopyCycleIsOrdinary(path: string, edited: Content, common: Content, server: Content)
    requires PlainName(path) && edited != common && server != common
    ensures var c := CopyCycle(path, edited, common, server); Faithful(c) && ByPriority(c.queue)
  {
    hide NameAt, OrdinaryName, Ignored, FirstCopy, Computed, IsTmp, IndexFull, RowTrue, ChangeTrue, UniqueIds,
        DistinctPaths;
    NotTmp(path);
    FirstCopyIsPlain(path);
    CopyCycleIsComputed(path, edited, common, server);
    CopyRowsAreTrue(path, edited, common, server);
  }

  lemma TwoExecuted(w: World, a: SyncAction, b: SyncAction, ea: Env, eb: Env, mid: World, end: World)
    requires Execute(w, a, ea) == Some(mid) && Execute(mid, b, eb) == Some(end)
    ensures ExecuteAll(w, [a, b], [ea, eb]) == Some(end)
  {
    hide Execute;
    OneExecuted(w, a, ea, mid);
    OneExecuted(mid, b, eb, end);
    ExecutesInTwoParts(w, [a], [b], [ea], [eb]);
    assert [a, b] == [a] + [b] && [ea, eb] == [ea] + [eb];
  }

  lemma CopyNameInCycle(path: string, edited: Content, common: Content, server: Content)
    requires PlainName(path)
    ensures var c := CopyCycle(path, edited, common, server);
      CopyPath(c.world, c.queue[0], SomeEnv(path)) == FirstCopy(path)
  {
    hide NameAt, Ignored, OrdinaryName, ConflictPath;
    FirstCopyIsPlain(path);
    var c := CopyCycle(path, edited, common, server);
    var existing := c.world.tree.files.Keys + c.world.tree.dirs;
    assert existing == {path};
    assert FirstFree(path, "0", existing, 1) == 1;
  }

  /** A conflict and then the deletion of its copy leave the server's content alone. */
  lemma OnlyServerLeft(c: Cycle, path: string, env: Env, mid: World, end: World)
    requires |c.queue| == 2 && c.queue[0].kind == Kind.Conflict && c.queue[0].relativePath == path
    requires Ready(c.world, c.queue[0], env) && mid == After(c.world, c.queue[0], env)
    requires NoTmpFiles(c.world) && !IsTmp(path) && IsStamp(env.stamp) && c.world.tree.files.Keys == {path}
    requires c.queue[1].kind == DeleteLocal && c.queue[1].relativePath == CopyPath(c.world, c.queue[0], env)
    requires Ready(mid, c.queue[1], env) && end == After(mid, c.queue[1], env)
    ensures forall p :: ContentAt(end, p) == if p == path then DriveAt(c.world, DriveIdOf(c.queue[0], env)) else None
    ensures end.drive == c.world.drive
  {
    hide CopyPath, IsTmp, StateAfter, TempPath, Parent;
    FilesAfter(c.world, c.queue[0], env);
    forall p ensures ContentAt(end, p) == if p == path then DriveAt(c.world, DriveIdOf(c.queue[0], env)) else None {
      assert FileAt(mid, p) == NewFile(c.world, c.queue[0], env, p);
    }
  }

  /** A conflict copy takes the name of a file that was deleted on both sides, and the deletion that is queued for
      that file removes the copy: the edited bytes are gone although the edit only met an update. */
  lemma DeletedCopyLosesBytes(path: string, edited: Content, common: Content, server: Content) returns (end: World)
    requires PlainName(path) && edited != common && server != common && edited != server
    ensures var c := CopyCycle(path, edited, common, server);
      && Faithful(c) && ByPriority(c.queue)
      && ExecuteAll(c.world, c.queue, [SomeEnv(path), SomeEnv(path)]) == Some(end)
      && ContentAt(c.world, path) == Some(edited) && Nowhere(end, edited)
      && c.remote[0].relativePath == path && c.remote[0].kind == UpdateDownload && c.remote[1].relativePath != path
  {
    hide NameAt, OrdinaryName, Ignored, Execute, StateAfter, Faithful, CopyPath, FirstCopy, After, IsTmp, IdIsFree;
    var c, env := CopyCycle(path, edited, common, server), SomeEnv(path);
    CopyCycleIsOrdinary(path, edited, common, server);
    FirstCopyIsPlain(path);
    CopyNameInCycle(path, edited, common, server);
    SameId(c.world.rows, c.queue[0], env);
    RunsInFlatFolder(c.world, c.queue[0], env);
    var mid := After(c.world, c.queue[0], env);
    NotTmp(path);
    StampOfEnv(path);
    WhereCopyIs(c, path, env, mid);
    RunsInFlatFolder(mid, c.queue[1], env);
    end := After(mid, c.queue[1], env);
    TwoExecuted(c.world, c.queue[0], c.queue[1], env, env, mid, end);
    OnlyServerLeft(c, path, env, mid, end);
  }

  lemma StampOfEnv(path: string)
    ensures IsStamp(SomeEnv(path).stamp) && '/' !in SomeEnv(path).stamp
  {
    var stamp := SomeEnv(path).stamp;
    assert forall d :: d in stamp ==> d == '0';
  }

  lemma WhereCopyIs(c: Cycle, path: string, env: Env, mid: World)
    requires c.queue != [] && c.queue[0].kind == Kind.Conflict && c.queue[0].relativePath == path
        && Ready(c.world, c.queue[0], env)
    requires mid == After(c.world, c.queue[0], env)
    requires NoTmpFiles(c.world) && !IsTmp(path) && IsStamp(env.stamp)
    ensures CopyPath(c.world, c.queue[0], env) in mid.tree.files
    ensures forall p :: FileAt(mid, p) == NewFile(c.world, c.queue[0], env, p)
  {
    hide CopyPath, After, IsTmp;
    FilesAfter(c.world, c.queue[0], env);
    var copy := CopyPath(c.world, c.queue[0], env);
    assert FileAt(mid, copy) == NewFile(c.world, c.queue[0], env, copy);
  }

  // ----- a child whose parent loses its path -----

  /** A new Drive file has the name of a file with a row, and another new file lies below the latter. */
  function OrphanCycle(path: string, name: string, common: Content, other: Content, child: Content): Cycle {
    var row := RowFor("r", path, "f", common);
    var twin, below := FileOf("g", path, "root", other), FileOf("h", name, "f", child);
    var actions := [UpdateDownloadOf(path, row, twin), NewDownloadOf(Join(path, name), below)];
    var drive := map["f" := common, "g" := other, "h" := child];
    Cycle(World(Tree(map[path := LocalFile(common, 0)], {}), drive, map[path := row]),
          Context(map[path := row], map["f" := row], "root"), [Changed(twin), Changed(below)], [], actions, actions)
  }

  function OrphanEnvs(path: string): seq<Env> { [SomeEnv(path), SomeEnv(path).(newId := "newer-file")] }

  lemma OrphanEmits(path: string, name: string, common: Content, other: Content, child: Content)
    requires path != "" && other != common
    ensures var c := OrphanCycle(path, name, common, other, child);
      && c.remote == RemoteActions(c.ctx, KnownPaths(c.ctx), c.changes) && IndexFull(c.ctx) && DistinctPaths(c.remote)
      && EmittedAt(c.ctx, c.changes, 0) == Some(c.remote[0]) && EmittedAt(c.ctx, c.changes, 1) == Some(c.remote[1])
  {
    hide RemoteActions, PathsAt, IndexFull;
    var c := OrphanCycle(path, name, common, other, child);
    OneRowIsIndexed(c.ctx, RowFor("r", path, "f", common));
    OneOrTwoRemote(c.ctx, c.changes);
    NoPathsYet(c.ctx, c.changes);
    PathsAtNext(c.ctx, c.changes, 0);
  }

  lemma OneRowIsIndexed(ctx: Context, row: FileState)
    requires row.driveFileId.Some? && ctx.rows == map[row.relativePath := row]
    requires ctx.byId == map[row.driveFileId.value := row]
    ensures IndexFull(ctx)
  {
  }

  lemma OrphanLocal(path: string, name: string, common: Content, other: Content, child: Content)
    ensures var c := OrphanCycle(path, name, common, other, child); LocalExactly(c.world.tree, c.ctx.rows, c.local)
  {
    hide Ignored, Join;
  }

  lemma OrphanIsComputed(path: string, name: string, common: Content, other: Content, child: Content)
    requires path != "" && other != common
    ensures Computed(OrphanCycle(path, name, common, other, child))
  {
    hide RemoteActions, LocalExactly, KnownPaths, IndexFull, Join, EmittedAt;
    var c := OrphanCycle(path, name, common, other, child);
    OrphanEmits(path, name, common, other, child);
    OrphanLocal(path, name, common, other, child);
    assert c.remote[0] in c.remote && c.remote[1] in c.remote && c.queue[0] in c.queue && c.queue[1] in c.queue;
    assert QueuedRight(c, c.queue[0]) && QueuedRight(c, c.queue[1]);
    QueueIsComputed(c);
  }

  lemma OrphanIsResumable(path: string, name: string, common: Content, other: Content, child: Content)
    requires path != "" && other != common
    ensures var c := OrphanCycle(path, name, common, other, child); Resumable(c) && FreshIds(c, OrphanEnvs(path))
  {
    hide Computed, IndexFull, Join, EmittedAt, RemoteActions, KnownPaths, FreshIds, DistinctPaths;
    var c := OrphanCycle(path, name, common, other, child);
    OrphanIsComputed(path, name, common, other, child);
    OrphanEmits(path, name, common, other, child);
    OrphanIdsAreFresh(path, name, common, other, child);
  }

  lemma OrphanIdsAreFresh(path: string, name: string, common: Content, other: Content, child: Content)
    ensures FreshIds(OrphanCycle(path, name, common, other, child), OrphanEnvs(path))
  {
    hide Join;
  }

  lemma OrphanRuns(path: string, name: string, common: Content, other: Content, child: Content) returns (mid: World)
    requires PlainName(path) && path != "" && name != "" && '/' !in name
    ensures var c, envs := OrphanCycle(path, name, common, other, child), OrphanEnvs(path);
      ExecuteAll(c.world, c.queue[..1], envs[..1]) == Some(mid) && Execute(mid, c.queue[1], envs[1]) == None
  {
    hide NameAt, OrdinaryName, Ignored, Execute, StateAfter, TempPath, Parent;
    var c, envs := OrphanCycle(path, name, common, other, child), OrphanEnvs(path);
    SameId(c.world.rows, c.queue[0], envs[0]);
    RunsInFlatFolder(c.world, c.queue[0], envs[0]);
    mid := After(c.world, c.queue[0], envs[0]);
    assert c.queue[..1] == [c.queue[0]] && envs[..1] == [envs[0]];
    OneExecuted(c.world, c.queue[0], envs[0], mid);
    assert path in mid.tree.files;
    NoDirectoryBelowAFile(mid, c.queue[1], envs[1], path, name);
  }

  lemma OrphanIsTaken(path: string, name: string, common: Content, other: Content, child: Content)
    requires path != "" && name != "" && other != common
    ensures var c := OrphanCycle(path, name, common, other, child);
      && TakenBy(c, "f", 0) && !NoOrphans(c) && Done(c, 1, path) && !Done(c, 1, Join(path, name))
      && EmittedAt(c.ctx, c.changes, 1) == Some(c.queue[1]) && EmittedAt(c.ctx, c.changes, 0) == Some(c.queue[0])
  {
    hide RemoteActions, EmittedAt, KnownPaths;
    var c := OrphanCycle(path, name, common, other, child);
    OrphanEmits(path, name, common, other, child);
    assert TakenBy(c, "f", 0);
    assert Unknown(c.ctx, c.changes[1]) && ParentOf(c.changes[1].file.value) == Some("f");
  }

  /** The condition that no parent loses its path is needed: here the first download takes the path of the parent
      over, the second one fails because its directory is a file, and the next comparison of the same changes has
      nothing to say about the second file. */
  lemma OrphanIsForgotten(path: string, name: string, common: Content, other: Content, child: Content)
    returns (mid: World)
    requires PlainName(path) && path != "" && name != "" && '/' !in name && other != common
    ensures var c, envs := OrphanCycle(path, name, common, other, child), OrphanEnvs(path);
      && Resumable(c) && FreshIds(c, envs) && !NoOrphans(c)
      && ExecuteAll(c.world, c.queue[..1], envs[..1]) == Some(mid) && Execute(mid, c.queue[1], envs[1]) == None
      && EmittedAt(c.ctx, c.changes, 1) == Some(c.queue[1])
      && forall listing :: TableListing(listing, mid.rows) ==>
           EmittedAt(Context(mid.rows, ById(listing), "root"), c.changes, 1) == None
           && !Resumes(c, 1, Context(mid.rows, ById(listing), "root"))
  {
    hide PlainName, Execute, ExecuteAll, Resumable, FreshIds, NoOrphans, EmittedAt, ById, TakenBy, Done, IndexFull,
        RowsDone;
    var c, envs := OrphanCycle(path, name, common, other, child), OrphanEnvs(path);
    OrphanIsResumable(path, name, common, other, child);
    OrphanIsTaken(path, name, common, other, child);
    mid := OrphanRuns(path, name, common, other, child);
    RowsAfterPrefix(c, envs, 1, mid);
    forall listing | TableListing(listing, mid.rows)
      ensures EmittedAt(Context(mid.rows, ById(listing), "root"), c.changes, 1) == None
              && !Resumes(c, 1, Context(mid.rows, ById(listing), "root"))
    {
      IndexFullAfter(c, envs, 1, mid.rows, listing);
      var next := Context(mid.rows, ById(listing), "root");
      OrphanIsLost(c, envs, 1, mid.rows, next, "f", 0, 1);
    }
  }

  lemma NoDirectoryBelowAFile(w: World, a: SyncAction, env: Env, path: string, name: string)
    requires a.kind == NewDownload && a.relativePath == Join(path, name) && path in w.tree.files && path != ""
    requires name != "" && '/' !in name
    ensures Execute(w, a, env) == None
  {
    hide ApplyOps;
    JoinSplits(path, name);
    assert path in Ancestors(path);
    var plan := PlanOf(w, a, env);
    if plan.ok {
      assert plan.ops[0] == MakeDirs(path);
      RefusedAtOnce(w, plan.ops);
    }
  }

  lemma RefusedAtOnce(w: World, ops: seq<Op>)
    requires ops != [] && Apply(w, ops[0]) == None
    ensures ApplyOps(w, ops) == None
  {
    hide Apply;
  }

  // ----- a change that a pause makes the folder forget -----

  /** A new file on Drive and an empty folder. */
  function NewFileCycle(path: string, content: Content): Cycle {
    var file := FileOf("f", path, "root", content);
    Cycle(World(Tree(map[], {}), map["f" := content], map[]), Context(map[], map[], "root"), [Changed(file)],
          [], [NewDownloadOf(path, file)], [NewDownloadOf(path, file)])
  }

  lemma NewFileIsOrdinary(path: string, content: Content)
    requires PlainName(path)
    ensures var c := NewFileCycle(path, content);
      && Faithful(c) && Resumable(c) && NoOrphans(c) && ByPriority(c.queue)
      && EmittedAt(c.ctx, c.changes, 0) == Some(c.queue[0])
  {
    hide RemoteActions, MergedAt, NameAt, OrdinaryName, Ignored, PathsAt, Taken;
    var c := NewFileCycle(path, content);
    NotTmp(path);
    OneOrTwoRemote(c.ctx, c.changes);
    NoPathsYet(c.ctx, c.changes);
    assert c.remote[0] in c.remote && c.queue[0] in c.queue;
    assert QueuedRight(c, c.queue[0]);
    QueueIsComputed(c);
    assert !Taken(c, "root") by { NothingTaken(c, "root"); }
  }

  lemma NothingTaken(c: Cycle, id: string)
    requires id !in c.ctx.byId
    ensures !Taken(c, id)
  {
  }

  /** The cycle is paused before its only download. */
  function ForgottenTurn(path: string, content: Content): Turn {
    Turn(0, 1, Attempt(NewFileCycle(path, content), [SomeEnv(path)], 0, Paused), true)
  }

  /** After a pause the page token stands behind a change whose action never ran, and no later cycle fetches it
      again. Nothing but the pause is to blame: the cycle meets every condition for converging and resuming. */
  lemma PauseForgetsAChange(path: string, content: Content)
    requires PlainName(path)
    ensures var t := ForgottenTurn(path, content); var log := t.at.cycle.changes;
      && TurnOk(log, t) && t.at.ended == Paused && t.Next() == |log| && !Handled(t.at, 0)
      && Faithful(t.at.cycle) && Resumable(t.at.cycle) && NoOrphans(t.at.cycle)
  {
    hide EmittedAt, Faithful, Resumable, NoOrphans, Computed, NameAt, OrdinaryName, Ignored;
    var t := ForgottenTurn(path, content);
    var c := t.at.cycle;
    NewFileIsOrdinary(path, content);
    assert Computed(c) by { FaithfulIsComputed(c); }
    assert c.changes[0..1] == c.changes;
    assert c.queue[..0] == [] && t.at.envs[..0] == [];
    assert ExecuteAll(c.world, c.queue[..0], t.at.envs[..0]) == Some(c.world);
    assert EndsIn(t.at, c.world);
  }

  lemma FaithfulIsComputed(c: Cycle)
    requires Faithful(c)
    ensures Computed(c)
  {
  }

  /** Without the pause the same cycle runs to its end, and the file is there. */
  lemma UnpausedItConverges(path: string, content: Content) returns (end: World)
    requires PlainName(path)
    ensures var at := ForgottenTurn(path, content).at;
      && ExecuteAll(at.cycle.world, at.cycle.queue, at.envs) == Some(end)
      && ContentAt(end, path) == Some(content) && Converged(end, {})
  {
    hide NameAt, OrdinaryName, Ignored, Execute, StateAfter, TempPath, Parent, Faithful, Resumable, Good;
    var c, env := NewFileCycle(path, content), SomeEnv(path);
    NewFileIsOrdinary(path, content);
    RunsInFlatFolder(c.world, c.queue[0], env);
    end := After(c.world, c.queue[0], env);
    OneExecuted(c.world, c.queue[0], env, end);
    StampOfEnv(path);
    CycleConverges(c, [env], end);
  }

  // ----- a change that the comparison overlooks -----

  /** A new file in a Drive folder that no row and no other change knows, and an empty local folder. */
  function DroppedCycle(name: string, content: Content): Cycle {
    Cycle(World(Tree(map[], {}), map["f" := content], map[]), Context(map[], map[], "root"),
          [Changed(FileOf("f", name, "d", content))], [], [], [])
  }

  function DroppedTurn(name: string, content: Content): Turn {
    Turn(0, 1, Attempt(DroppedCycle(name, content), [], 0, Completed), true)
  }

  lemma DroppedIsOrdinary(name: string, content: Content)
    ensures var c := DroppedCycle(name, content);
      Faithful(c) && Resumable(c) && NoOrphans(c) && ByPriority(c.queue) && Dropped(c.ctx, c.changes, 0)
  {
    hide RemoteActions, MergedAt, PathsAt, Taken, KnownPaths;
    var c := DroppedCycle(name, content);
    assert KnownPaths(c.ctx) == map[] by { NoKnownPaths(c.ctx); }
    NoPathsYet(c.ctx, c.changes);
    OneOrTwoRemote(c.ctx, c.changes);
    QueueIsComputed(c);
    NothingTaken(c, "d");
  }

  lemma NoKnownPaths(ctx: Context)
    requires ctx.byId == map[]
    ensures KnownPaths(ctx) == map[]
  {
  }

  /** A cycle that converges, and after which the page token stands behind the change of a file that is on Drive and
      nowhere in the folder or in the table: the comparison has dropped it, since its folder is unknown. */
  lemma DroppedFileIsForgotten(name: string, content: Content)
    ensures var t := DroppedTurn(name, content); var log, c := t.at.cycle.changes, t.at.cycle;
      && Faithful(c) && Resumable(c) && NoOrphans(c) && ByPriority(c.queue)
      && TurnOk(log, t) && t.at.ended == Completed && Life(log, [t], 0, 1) && t.Next() == |log| == 1
      && EndsIn(t.at, c.world) && Converged(c.world, {})
      && DriveAt(c.world, "f") == Some(content) && !Landed(c.world, "f") && c.world.tree.files == map[]
      && Dropped(c.ctx, c.changes, 0) && !Handled(t.at, 0)
  {
    hide EmittedAt, Faithful, Resumable, NoOrphans, Computed, PathsAt, Dropped, NothingToDo;
    var t := DroppedTurn(name, content);
    var c, log, turns := t.at.cycle, t.at.cycle.changes, [t];
    DroppedIsOrdinary(name, content);
    FaithfulIsComputed(c);
    assert log[0..1] == log;
    assert c.queue[..0] == [] && t.at.envs[..0] == [];
    assert ExecuteAll(c.world, c.queue[..0], t.at.envs[..0]) == Some(c.world);
    assert EndsIn(t.at, c.world);
    assert turns[1..] == [] && Life(log, turns[1..], 1, 1);
    NothingEmittedExactly(c.ctx, c.changes, 0);
    assert Overlooked(c.ctx, c.changes, 0);
  }

  // ----- cycles that repeat themselves -----

  /** What the next cycle uploads in a folder with one file. */
  function UploadOfOnly(w: World, path: string): SyncAction
    requires path in w.rows && path in w.tree.files
  {
    UpdateUploadOf(path, w.rows[path], Md5(w.tree.files[path].content), w.tree.files[path].modified)
  }

  /** The cycle that follows, without any change on Drive, in a folder with one file. */
  function NextOfOne(w: World, path: string): Cycle
    requires path in w.rows && path in w.tree.files
  {
    var upload := UploadOfOnly(w, path);
    Cycle(w, Context(w.rows, ById([w.rows[path]]), "root"), [], [upload], [], [upload])
  }

  /** The folder has one file, with a row, that the walk takes for edited. */
  ghost predicate OneEdited(w: World, path: string) {
    && w.rows.Keys == {path} && w.rows[path].relativePath == path && w.tree.dirs == {} && w.tree.files.Keys == {path}
    && !Ignored(path) && w.rows[path].localModified != Some(w.tree.files[path].modified)
  }

  lemma NextOfOneIsComputed(w: World, path: string)
    requires OneEdited(w, path)
    ensures var next := NextOfOne(w, path);
      && Computed(next) && next.remote == []
      && TableListing([w.rows[path]], w.rows) && next.ctx == Context(w.rows, ById([w.rows[path]]), "root")
  {
    hide Ignored, ById, KnownPaths, MergedAt, UploadOfOnly;
    var next := NextOfOne(w, path);
    OneLocal(w, path);
    assert [w.rows[path]][0] == w.rows[path] && next.queue[0] in next.queue && next.local[0] in next.local;
    assert next.queue[0] == UploadOfOnly(w, path);
    assert UploadOfOnly(w, path).relativePath == path by { PathOfOnly(w, path); }
    QueueIsComputed(next);
  }

  lemma PathOfOnly(w: World, path: string)
    requires path in w.rows && path in w.tree.files
    ensures UploadOfOnly(w, path).relativePath == path && UploadOfOnly(w, path).kind == UpdateUpload
  {
  }

  lemma OneLocal(w: World, path: string)
    requires OneEdited(w, path)
    ensures LocalExactly(w.tree, w.rows, [UploadOfOnly(w, path)])
  {
    hide Ignored;
    var local := [UploadOfOnly(w, path)];
    assert local[0] in local;
  }

  function LateEnv(path: string): Env { SomeEnv(path).(now := 1) }

  /** A cycle that downloads one new file, and after which the next one uploads that file although nobody has
      touched it: it was written at another time than the one that Drive gives for it. */
  lemma DownloadIsUploadedNext(path: string, content: Content) returns (end: World, next: Cycle)
    requires PlainName(path)
    ensures var c, envs := NewFileCycle(path, content), [LateEnv(path)];
      && Faithful(c) && Resumable(c) && FreshIds(c, envs) && EnvOk(c.ctx, envs[0])
      && ExecuteAll(c.world, c.queue, envs) == Some(end) && Repeats(c, envs, end, next)
    ensures next.changes == [] && |next.queue| == 1
        && next.queue[0].kind == UpdateUpload && next.queue[0].relativePath == path
  {
    hide NameAt, OrdinaryName, Ignored, Execute, StateAfter, TempPath, Parent, Faithful, Resumable, ById, Computed;
    var c, env := NewFileCycle(path, content), LateEnv(path);
    NewFileIsOrdinary(path, content);
    RunsInFlatFolder(c.world, c.queue[0], env);
    end := After(c.world, c.queue[0], env);
    OneExecuted(c.world, c.queue[0], env, end);
    StampOfEnv(path);
    LateDownload(path, content);
    NextOfOneIsComputed(end, path);
    next := NextOfOne(end, path);
    assert OnlyEchoes(c, [env], next.changes);
    assert Repeats(c, [env], end, next);
  }

  lemma LateDownload(path: string, content: Content)
    requires PlainName(path)
    ensures var c, env := NewFileCycle(path, content), LateEnv(path);
      Ready(c.world, c.queue[0], env) && OneEdited(After(c.world, c.queue[0], env), path)
  {
    hide NameAt, OrdinaryName, Ignored, TempPath, StoredTime, StoredSeconds;
    TimeSurvives(0);
    InRoot(path);
    TempPathIsTmp(path);
    NotTmp(path);
  }

  /** An edited file whose time is not a whole millisecond. */
  function TouchedCycle(path: string, edited: Content, common: Content): Cycle {
    var w := World(Tree(map[path := LocalFile(edited, 1)], {}), map["f" := common],
                   map[path := RowFor("r", path, "f", common)]);
    NextOfOne(w, path)
  }

  function AnswerEnv(path: string, edited: Content): Env {
    SomeEnv(path).(reply := FileOf("f", path, "root", edited))
  }

  lemma OneRowIndex(row: FileState, root: string, rows: States)
    requires row.driveFileId.Some? && rows == map[row.relativePath := row]
    ensures ById([row]) == map[row.driveFileId.value := row] && IndexFull(Context(rows, ById([row]), root))
  {
    var listing := [row];
    assert listing[..0] == [] && ById(listing[..0]) == map[];
  }

  /** A cycle of a folder with one edited file meets every condition. */
  lemma OneEditedIsOrdinary(w: World, path: string, content: Content)
    requires OneEdited(w, path) && PlainName(path) && w.tree.files[path].content == content
    requires var row := w.rows[path];
      row.driveFileId == Some("f") && row.localMd5.Some? && row.localMd5 == row.driveMd5
      && w.drive == map["f" := row.localMd5.value.of]
    ensures var c := NextOfOne(w, path);
      Faithful(c) && Resumable(c) && FreshIds(c, [AnswerEnv(path, content)]) && NoTmpFiles(w)
  {
    hide NameAt, OrdinaryName, Ignored, ById, Computed, IsTmp;
    var c, row := NextOfOne(w, path), w.rows[path];
    NextOfOneIsComputed(w, path);
    NotTmp(path);
    assert w.rows == map[path := row];
    OneRowIndex(row, "root", w.rows);
    assert forall p :: p in c.ctx.rows ==> RowTrue(c, c.ctx.rows[p]);
  }

  /** The upload of the file leaves the same file, and a row that the next walk does not agree with. */
  lemma TouchedRuns(path: string, edited: Content, common: Content) returns (end: World)
    requires PlainName(path) && edited != common
    ensures var c, env := TouchedCycle(path, edited, common), AnswerEnv(path, edited);
      && OneEdited(c.world, path) && Execute(c.world, c.queue[0], env) == Some(end) && OneEdited(end, path)
      && end.drive == map["f" := edited] && end.tree == c.world.tree
      && end.rows[path].driveFileId == Some("f")
      && end.rows[path].localMd5 == end.rows[path].driveMd5 == Some(Md5(edited))
  {
    hide NameAt, OrdinaryName, Ignored, ApplyOps, StoredTime, StoredSeconds;
    TimeSurvives(1);
    var c, env := TouchedCycle(path, edited, common), AnswerEnv(path, edited);
    var a := c.queue[0];
    var row := StateAfterUpload(env, path, "f", a.localMd5, a.localModified);
    TwoOpsApply(c.world, DriveUpdate("f", edited), UpsertRow(row));
    end := Execute(c.world, a, env).value;
  }

  /** The round that starts after the upload and does not run anything yet. */
  lemma WaitingRound(end: World, path: string, content: Content)
    requires OneEdited(end, path) && PlainName(path) && end.tree.files[path].content == content
    requires Faithful(NextOfOne(end, path)) && Resumable(NextOfOne(end, path))
        && FreshIds(NextOfOne(end, path), [AnswerEnv(path, content)])
    ensures RoundOk(Round(NextOfOne(end, path), [AnswerEnv(path, content)], 0, end))
  {
    hide NameAt, OrdinaryName, Ignored, ById, Faithful, Resumable, ExecuteAll;
    var next, env := NextOfOne(end, path), AnswerEnv(path, content);
    StampOfEnv(path);
    NothingRun(end, next.queue[..0], [env][..0]);
  }

  lemma UploadRound(path: string, edited: Content, common: Content, end: World)
    requires Resumable(TouchedCycle(path, edited, common))
        && FreshIds(TouchedCycle(path, edited, common), [AnswerEnv(path, edited)])
    requires var c := TouchedCycle(path, edited, common);
      Execute(c.world, c.queue[0], AnswerEnv(path, edited)) == Some(end)
    ensures RoundOk(Round(TouchedCycle(path, edited, common), [AnswerEnv(path, edited)], 1, end))
  {
    hide ById, Faithful, Resumable, ExecuteAll, Execute;
    var c, env := TouchedCycle(path, edited, common), AnswerEnv(path, edited);
    StampOfEnv(path);
    OneExecuted(c.world, c.queue[0], env, end);
    assert c.queue[..1] == [c.queue[0]] && [env][..1] == [env];
  }

  /** Two rounds in which nobody touches anything, and both of them upload the same file: by
      `UploadedForeverExactly` so does every later one. */
  lemma TouchedIsUploadedAgain(path: string, edited: Content, common: Content) returns (first: Round, second: Round)
    requires PlainName(path) && edited != common
    ensures first.cycle == TouchedCycle(path, edited, common) && Faithful(first.cycle)
    ensures RoundOk(first) && RoundOk(second) && Then(first, second.cycle) && RepeatedBy(first, second.cycle)
    ensures |first.cycle.queue| == |second.cycle.queue| == 1
        && first.cycle.queue[0].kind == second.cycle.queue[0].kind == UpdateUpload
        && second.cycle.world.tree == first.cycle.world.tree
  {
    hide NameAt, OrdinaryName, Ignored, ById, IsTmp, Execute, Faithful, Resumable, FreshIds, RoundOk, Then,
        Computed;
    var c, env := TouchedCycle(path, edited, common), AnswerEnv(path, edited);
    var end := TouchedRuns(path, edited, common);
    var next := NextOfOne(end, path);
    assert c.world.tree.files[path].content == edited;
    OneEditedIsOrdinary(c.world, path, edited);
    OneEditedIsOrdinary(end, path, edited);
    UploadRound(path, edited, common, end);
    WaitingRound(end, path, edited);
    first, second := Round(c, [env], 1, end), Round(next, [env], 0, end);
    FollowsUpload(first, end, path);
    assert OnlyEchoes(c, [env], next.changes);
  }

  lemma FollowsUpload(r: Round, end: World, path: string)
    requires OneEdited(end, path) && Faithful(NextOfOne(end, path)) && r.mid == end && r.ran == |r.cycle.queue|
    requires r.cycle.ctx.root == "root"
    ensures Then(r, NextOfOne(end, path))
  {
    hide Ignored, ById, Computed, IsTmp, ChangeTrue, RowTrue;
    NextOfOneIsComputed(end, path);
  }

  /** There are ordinary names. */
  lemma SomePlainName()
    ensures PlainName("a")
  {
    var name := "a";
    assert name[0..] == name && '/' !in name;
    NameAtUnique(name, 0);
    InRoot(name);
  }
}
