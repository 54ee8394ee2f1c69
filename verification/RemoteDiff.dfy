/** Turning a list of Drive changes into actions, and Drive files into local paths. */
module RemoteDiff {
  import opened Model
  import opened Paths
  import opened Actions

  /** What the comparison looks at besides the changes: the rows by path, the rows by Drive id, and the
      Drive id of the sync root. */
  datatype Context = Context(rows: States, byId: States, root: string)

  function ParentOf(f: DriveFile): Option<string> {
    match f.parents
    case Some(ids) => if ids == [] then None else Some(ids[0])
    case None => None
  }

  /** Not removed, present, and not in the trash. */
  predicate Live(c: DriveChange) { c.removed != Some(true) && c.file.Some? && !c.file.value.IsTrashed() }

  /** A change of a file that no row knows. */
  predicate Unknown(ctx: Context, c: DriveChange) { Live(c) && c.fileId !in ctx.byId }

  function Lookup(paths: map<string, string>, id: Option<string>): Option<string> {
    match id
    case Some(i) => if i in paths then Some(paths[i]) else None
    case None => None
  }

  /** The path of a file below the path of its parent, if that is known or is the sync root. */
  function Below(root: string, parent: Option<string>, parentPath: Option<string>, name: string): Option<string> {
    var dir := match parentPath case Some(p) => p case None => "";
    if dir == "" && parent != Some(root) then None else Some(Join(dir, name))
  }

  function ResolvePath(ctx: Context, paths: map<string, string>, c: DriveChange): Option<string>
    requires Live(c)
  {
    if c.fileId in ctx.byId then Some(ctx.byId[c.fileId].relativePath)
    else
      var parent := ParentOf(c.file.value);
      Below(ctx.root, parent, Lookup(paths, parent), c.file.value.name)
  }

  /** Only the first parent counts: below a file with a path the new path is that path, a slash and the name; below the
      sync root it is the name; anywhere else there is none. */
  lemma ResolvedWhere(ctx: Context, paths: map<string, string>, c: DriveChange, first: string, others: seq<string>)
    requires Unknown(ctx, c) && c.file.value.parents == Some([first] + others)
    ensures ResolvePath(ctx, paths, c) ==
      if first in paths && paths[first] != "" then Some(paths[first] + "/" + c.file.value.name)
      else if first == ctx.root then Some(c.file.value.name)
      else None
  {
    assert ([first] + others)[0] == first;
  }

  function NextPaths(ctx: Context, paths: map<string, string>, c: DriveChange): map<string, string> {
    if Unknown(ctx, c) && ResolvePath(ctx, paths, c).Some? then paths[c.fileId := ResolvePath(ctx, paths, c).value]
    else paths
  }

  /** The row a live change is compared with. */
  function KnownState(ctx: Context, id: string, path: string): Option<FileState> {
    if path in ctx.rows then Some(ctx.rows[path])
    else if id in ctx.byId then Some(ctx.byId[id])
    else None
  }

  function LiveAction(ctx: Context, c: DriveChange, path: string): Option<SyncAction>
    requires Live(c)
  {
    var file := c.file.value;
    match KnownState(ctx, c.fileId, path)
    case Some(state) =>
      if RemoteChanged(state, file.md5Checksum, file.modified) then Some(UpdateDownloadOf(path, state, file)) else None
    case None => Some(NewDownloadOf(path, file))
  }

  function ActionOf(ctx: Context, paths: map<string, string>, c: DriveChange): Option<SyncAction> {
    if c.removed == Some(true) then
      if c.fileId in ctx.byId then Some(DeleteLocalOf(ctx.byId[c.fileId].relativePath, ctx.byId[c.fileId])) else None
    else if !Live(c) then None
    else
      match ResolvePath(ctx, paths, c)
      case Some(path) => LiveAction(ctx, c, path)
      case None => None
  }

  function KnownPaths(ctx: Context): map<string, string> {
    map id | id in ctx.byId :: ctx.byId[id].relativePath
  }

  /** The paths known after a list of changes. */
  function PathsAfter(ctx: Context, paths: map<string, string>, changes: seq<DriveChange>): map<string, string>
    decreases |changes|
  {
    if changes == [] then paths else PathsAfter(ctx, NextPaths(ctx, paths, changes[0]), changes[1..])
  }

  function RemoteActions(ctx: Context, paths: map<string, string>, changes: seq<DriveChange>): seq<SyncAction>
    decreases |changes|
  {
    if changes == [] then []
    else
      Emit(ActionOf(ctx, paths, changes[0])) + RemoteActions(ctx, NextPaths(ctx, paths, changes[0]), changes[1..])
  }

  function Emit(a: Option<SyncAction>): seq<SyncAction> {
    match a case Some(x) => [x] case None => []
  }

  /** `by_drive_id`: the last listed row wins when two rows share a Drive id. */
  function ById(listing: seq<FileState>): States {
    if listing == [] then map[]
    else
      var last := listing[|listing| - 1];
      var before := ById(listing[..|listing| - 1]);
      match last.driveFileId case Some(id) => before[id := last] case None => before
  }

  /** The row is the last one listed for its Drive id. */
  ghost predicate LastListed(listing: seq<FileState>, i: nat, id: string)
    requires i < |listing|
  {
    listing[i].driveFileId == Some(id) && forall j :: i < j < |listing| ==> listing[j].driveFileId != Some(id)
  }

  ghost predicate IndexesLast(listing: seq<FileState>, index: States) {
    && (forall i, id :: 0 <= i < |listing| && LastListed(listing, i, id) ==> id in index && index[id] == listing[i])
    && (forall id :: id in index ==> exists i :: 0 <= i < |listing| && LastListed(listing, i, id))
  }

  lemma {:induction false} ByIdIsLast(listing: seq<FileState>)
    ensures IndexesLast(listing, ById(listing))
  {
    if listing != [] {
      var n := |listing| - 1;
      var before := listing[..n];
      ByIdIsLast(before);
      forall i, id | 0 <= i < |listing| && LastListed(listing, i, id)
        ensures id in ById(listing) && ById(listing)[id] == listing[i]
      {
        if i < n { assert LastListed(before, i, id); }
      }
      forall id | id in ById(listing) ensures exists i :: 0 <= i < |listing| && LastListed(listing, i, id) {
        if listing[n].driveFileId == Some(id) {
          assert LastListed(listing, n, id);
        } else {
          var i :| 0 <= i < |before| && LastListed(before, i, id);
          assert LastListed(listing, i, id);
        }
      }
    }
  }

  method IndexById(listing: seq<FileState>) returns (byDriveId: States)
    ensures byDriveId == ById(listing) && IndexesLast(listing, byDriveId)
  {
    ByIdIsLast(listing);
    byDriveId := map[];
    for i := 0 to |listing|
      invariant byDriveId == ById(listing[..i])
    {
      assert listing[..i + 1][..i] == listing[..i];
      match listing[i].driveFileId {
        case Some(id) => byDriveId := byDriveId[id := listing[i]];
        case None =>
      }
    }
    assert listing[..|listing|] == listing;
  }

  /** One turn of the loop over the changes. */
  method TakeChange(ctx: Context, driveIdToPath: map<string, string>, change: DriveChange)
    returns (action: Option<SyncAction>, paths: map<string, string>)
    ensures action == ActionOf(ctx, driveIdToPath, change) && paths == NextPaths(ctx, driveIdToPath, change)
  {
    action, paths := None, driveIdToPath;
    if change.removed == Some(true) {
      if change.fileId in ctx.byId {
        action := Some(DeleteLocalOf(ctx.byId[change.fileId].relativePath, ctx.byId[change.fileId]));
      }
      return;
    }
    if change.file.None? || change.file.value.IsTrashed() {
      return;
    }
    var file := change.file.value;
    var relativePath;
    if change.fileId in ctx.byId {
      relativePath := ctx.byId[change.fileId].relativePath;
    } else {
      var parent := ParentOf(file);
      var found := Lookup(driveIdToPath, parent);
      var parentPath := if found.Some? then found.value else "";
      if parentPath == "" && parent != Some(ctx.root) {
        return;
      }
      relativePath := Join(parentPath, file.name);
      paths := paths[change.fileId := relativePath];
    }
    var state := KnownState(ctx, change.fileId, relativePath);
    if state.None? {
      action := Some(NewDownloadOf(relativePath, file));
    } else if RemoteChanged(state.value, file.md5Checksum, file.modified) {
      action := Some(UpdateDownloadOf(relativePath, state.value, file));
    }
  }

  lemma Regroup(a: seq<SyncAction>, b: seq<SyncAction>, c: seq<SyncAction>)
    ensures a + (b + c) == (a + b) + c
  {
  }

  lemma DiffStep(ctx: Context, paths: map<string, string>, changes: seq<DriveChange>, done: seq<SyncAction>)
    requires changes != []
    ensures var emitted := Emit(ActionOf(ctx, paths, changes[0]));
      done + RemoteActions(ctx, paths, changes)
      == (done + emitted) + RemoteActions(ctx, NextPaths(ctx, paths, changes[0]), changes[1..])
  {
    Regroup(done, Emit(ActionOf(ctx, paths, changes[0])),
        RemoteActions(ctx, NextPaths(ctx, paths, changes[0]), changes[1..]));
  }

  method ComputeRemoteChanges(listing: seq<FileState>, rows: States, root: string, changes: seq<DriveChange>)
    returns (actions: seq<SyncAction>)
    ensures actions == var ctx := Context(rows, ById(listing), root); RemoteActions(ctx, KnownPaths(ctx), changes)
  {
    var byDriveId := IndexById(listing);
    var ctx := Context(rows, byDriveId, root);
    var driveIdToPath := KnownPaths(ctx);
    ghost var all := RemoteActions(ctx, driveIdToPath, changes);
    actions := [];
    var rest := changes;
    while rest != []
      invariant actions + RemoteActions(ctx, driveIdToPath, rest) == all
      decreases |rest|
    {
      DiffStep(ctx, driveIdToPath, rest, actions);
      var action, paths := TakeChange(ctx, driveIdToPath, rest[0]);
      actions := actions + Emit(action);
      driveIdToPath := paths;
      rest := rest[1..];
    }
  }

  // ----- parent chains -----

  /** `files` holds the file of every unknown live change, by id. */
  ghost predicate Describes(ctx: Context, changes: seq<DriveChange>, files: map<string, DriveFile>) {
    && (forall c :: c in changes && Unknown(ctx, c) ==> c.fileId in files && files[c.fileId] == c.file.value)
    && (forall id :: id in files ==> exists c :: c in changes && Unknown(ctx, c) && c.fileId == id)
  }

  /** The join of names along the parent chain of a file, at most `n` unknown files long, up to the sync
      root or to a file that has a row. */
  ghost function ChainPath(ctx: Context, files: map<string, DriveFile>, id: string, n: nat): Option<string>
    decreases n
  {
    if id in ctx.byId then Some(ctx.byId[id].relativePath)
    else if n == 0 || id !in files then None
    else
      var parent := ParentOf(files[id]);
      Below(ctx.root, parent, match parent case Some(p) => ChainPath(ctx, files, p, n - 1) case None => None,
          files[id].name)
  }

  /** The sync root is not a file inside the sync folder. */
  ghost predicate RootOutside(ctx: Context, files: map<string, DriveFile>) {
    forall n: nat :: ChainPath(ctx, files, ctx.root, n) == None
  }

  lemma {:induction false} LongerChains(ctx: Context, files: map<string, DriveFile>, id: string, n: nat, m: nat)
    requires RootOutside(ctx, files) && n <= m && ChainPath(ctx, files, id, n).Some?
    ensures ChainPath(ctx, files, id, m) == ChainPath(ctx, files, id, n)
    decreases n
  {
    if id !in ctx.byId {
      var parent := ParentOf(files[id]);
      if parent.Some? {
        if ChainPath(ctx, files, parent.value, n - 1).Some? {
          LongerChains(ctx, files, parent.value, n - 1, m - 1);
        } else {
          assert parent == Some(ctx.root) && ChainPath(ctx, files, ctx.root, m - 1) == None;
        }
      }
    }
  }

  /** Every path found so far is the chain path of its file. */
  ghost predicate SoundPaths(ctx: Context, files: map<string, DriveFile>, paths: map<string, string>, n: nat) {
    && (forall id :: id in ctx.byId ==> id in paths)
    && (forall id :: id in paths ==> ChainPath(ctx, files, id, n) == Some(paths[id]))
  }

  lemma StepIsSound(ctx: Context, files: map<string, DriveFile>, paths: map<string, string>, n: nat, c: DriveChange)
    requires RootOutside(ctx, files) && SoundPaths(ctx, files, paths, n)
    requires Unknown(ctx, c) ==> c.fileId in files && files[c.fileId] == c.file.value
    ensures SoundPaths(ctx, files, NextPaths(ctx, paths, c), n + 1)
  {
    forall id | id in paths ensures ChainPath(ctx, files, id, n + 1) == Some(paths[id]) {
      LongerChains(ctx, files, id, n, n + 1);
    }
    if Unknown(ctx, c) && ResolvePath(ctx, paths, c).Some? {
      var parent := ParentOf(c.file.value);
      if parent.Some? && parent.value !in paths {
        assert parent == Some(ctx.root) && ChainPath(ctx, files, ctx.root, n) == None;
      }
      assert ChainPath(ctx, files, c.fileId, n + 1) == ResolvePath(ctx, paths, c);
    }
  }

  lemma {:induction false} PathsAreSound(ctx: Context, files: map<string, DriveFile>, paths: map<string, string>,
                                         n: nat,
                                         changes: seq<DriveChange>)
    requires RootOutside(ctx, files) && SoundPaths(ctx, files, paths, n)
    requires forall c :: c in changes && Unknown(ctx, c) ==> c.fileId in files && files[c.fileId] == c.file.value
    ensures SoundPaths(ctx, files, PathsAfter(ctx, paths, changes), n + |changes|)
    decreases |changes|
  {
    if changes != [] {
      StepIsSound(ctx, files, paths, n, changes[0]);
      PathsAreSound(ctx, files, NextPaths(ctx, paths, changes[0]), n + 1, changes[1..]);
    }
  }

  lemma KnownPathsOk(ctx: Context, files: map<string, DriveFile>)
    ensures SoundPaths(ctx, files, KnownPaths(ctx), 0) && CompletePaths(ctx, files, KnownPaths(ctx), {})
  {
  }

  /** In any list, in any order: the path given to an unknown file is the join of the names along its
      parent chain up to the sync root or a file with a row. */
  lemma ResolvedPathIsChainPath(ctx: Context, changes: seq<DriveChange>, files: map<string, DriveFile>, id: string)
    requires Describes(ctx, changes, files) && RootOutside(ctx, files)
    requires id in PathsAfter(ctx, KnownPaths(ctx), changes)
    ensures ChainPath(ctx, files, id, |changes|) == Some(PathsAfter(ctx, KnownPaths(ctx), changes)[id])
  {
    KnownPathsOk(ctx, files);
    PathsAreSound(ctx, files, KnownPaths(ctx), 0, changes);
  }

  /** A parent that is itself an unknown file of the list comes before its children, counting the
      files of `seen` as earlier ones. */
  ghost predicate ParentsFirst(ctx: Context, changes: seq<DriveChange>, files: map<string, DriveFile>,
                               seen: set<string>)
    decreases |changes|
  {
    changes != [] ==>
      && (Unknown(ctx, changes[0]) ==>
            match ParentOf(changes[0].file.value)
            case Some(p) => p in files && p !in ctx.byId ==> p in seen
            case None => true)
      && ParentsFirst(ctx, changes[1..], files, if Unknown(ctx, changes[0]) then seen + {changes[0].fileId} else seen)
  }

  /** Every earlier file with a chain has its path. */
  ghost predicate CompletePaths(ctx: Context, files: map<string, DriveFile>, paths: map<string, string>,
                                seen: set<string>) {
    && (forall id :: id in ctx.byId ==> id in paths)
    && (forall id, n: nat :: id in seen && ChainPath(ctx, files, id, n).Some? ==> id in paths)
  }

  lemma StepIsComplete(ctx: Context, files: map<string, DriveFile>, paths: map<string, string>, seen: set<string>,
                       m: nat, c: DriveChange)
    requires RootOutside(ctx, files) && SoundPaths(ctx, files, paths, m) && CompletePaths(ctx, files, paths, seen)
    requires Unknown(ctx, c) && c.fileId in files && files[c.fileId] == c.file.value
    requires match ParentOf(c.file.value)
             case Some(p) => p in files && p !in ctx.byId ==> p in seen
             case None => true
    ensures CompletePaths(ctx, files, NextPaths(ctx, paths, c), seen + {c.fileId})
  {
    forall n: nat | ChainPath(ctx, files, c.fileId, n).Some? ensures c.fileId in NextPaths(ctx, paths, c) {
      var parent := ParentOf(c.file.value);
      if parent.Some? && parent != Some(ctx.root) {
        assert ChainPath(ctx, files, parent.value, n - 1).Some?;
        assert parent.value in paths;
        var longest := if m < n - 1 then n - 1 else m;
        LongerChains(ctx, files, parent.value, n - 1, longest);
        LongerChains(ctx, files, parent.value, m, longest);
      }
    }
  }

  lemma {:induction false} PathsAreComplete(ctx: Context, files: map<string, DriveFile>, paths: map<string, string>,
                                            seen: set<string>, m: nat, changes: seq<DriveChange>)
    requires RootOutside(ctx, files) && SoundPaths(ctx, files, paths, m) && CompletePaths(ctx, files, paths, seen)
    requires forall c :: c in changes && Unknown(ctx, c) ==> c.fileId in files && files[c.fileId] == c.file.value
    requires ParentsFirst(ctx, changes, files, seen)
    ensures forall id, n: nat ::
              ((id in seen || exists c :: c in changes && Unknown(ctx, c) && c.fileId == id)
               && ChainPath(ctx, files, id, n).Some?) ==> id in PathsAfter(ctx, paths, changes)
    decreases |changes|
  {
    if changes != [] {
      var c, rest := changes[0], changes[1..];
      var next := NextPaths(ctx, paths, c);
      StepIsSound(ctx, files, paths, m, c);
      if Unknown(ctx, c) {
        StepIsComplete(ctx, files, paths, seen, m, c);
        PathsAreComplete(ctx, files, next, seen + {c.fileId}, m + 1, rest);
      } else {
        PathsAreComplete(ctx, files, next, seen, m + 1, rest);
      }
      assert forall x :: x in changes <==> x == c || x in rest;
    }
  }

  lemma SameChain(ctx: Context, files: map<string, DriveFile>, id: string, n: nat, m: nat)
    requires RootOutside(ctx, files) && ChainPath(ctx, files, id, n).Some? && ChainPath(ctx, files, id, m).Some?
    ensures ChainPath(ctx, files, id, n) == ChainPath(ctx, files, id, m)
  {
    var longest := if n < m then m else n;
    LongerChains(ctx, files, id, n, longest);
    LongerChains(ctx, files, id, m, longest);
  }

  /** In a list with parents first, every unknown file with a chain to the root gets its path. */
  lemma ParentsFirstResolvesAll(ctx: Context, changes: seq<DriveChange>, files: map<string, DriveFile>, id: string,
                                n: nat)
    requires Describes(ctx, changes, files) && RootOutside(ctx, files) && ParentsFirst(ctx, changes, files, {})
    requires id in files && ChainPath(ctx, files, id, n).Some?
    ensures id in PathsAfter(ctx, KnownPaths(ctx), changes)
    ensures PathsAfter(ctx, KnownPaths(ctx), changes)[id] == ChainPath(ctx, files, id, n).value
  {
    AllResolved(ctx, changes, files, id, n);
    ResolvedPathIsChainPath(ctx, changes, files, id);
    SameChain(ctx, files, id, n, |changes|);
  }

  lemma AllResolved(ctx: Context, changes: seq<DriveChange>, files: map<string, DriveFile>, id: string, n: nat)
    requires Describes(ctx, changes, files) && RootOutside(ctx, files) && ParentsFirst(ctx, changes, files, {})
    requires id in files && ChainPath(ctx, files, id, n).Some?
    ensures id in PathsAfter(ctx, KnownPaths(ctx), changes)
  {
    KnownPathsOk(ctx, files);
    PathsAreComplete(ctx, files, KnownPaths(ctx), {}, 0, changes);
    var c :| c in changes && Unknown(ctx, c) && c.fileId == id;
  }

  /** Two lists of the same changes, both with parents first, give every file the same path. */
  lemma OrderDoesNotMatter(ctx: Context, a: seq<DriveChange>, b: seq<DriveChange>, files: map<string, DriveFile>)
    requires Describes(ctx, a, files) && Describes(ctx, b, files) && RootOutside(ctx, files)
    requires ParentsFirst(ctx, a, files, {}) && ParentsFirst(ctx, b, files, {})
    ensures PathsAfter(ctx, KnownPaths(ctx), a) == PathsAfter(ctx, KnownPaths(ctx), b)
  {
    OneOrderAgrees(ctx, a, b, files);
    OneOrderAgrees(ctx, b, a, files);
  }

  lemma OneOrderAgrees(ctx: Context, a: seq<DriveChange>, b: seq<DriveChange>, files: map<string, DriveFile>)
    requires Describes(ctx, a, files) && Describes(ctx, b, files) && RootOutside(ctx, files)
    requires ParentsFirst(ctx, b, files, {})
    ensures var pa, pb := PathsAfter(ctx, KnownPaths(ctx), a), PathsAfter(ctx, KnownPaths(ctx), b);
      forall id :: id in pa ==> id in pb && pb[id] == pa[id]
  {
    var pa, pb := PathsAfter(ctx, KnownPaths(ctx), a), PathsAfter(ctx, KnownPaths(ctx), b);
    KnownPathsOk(ctx, files);
    PathsAreSound(ctx, files, KnownPaths(ctx), 0, b);
    forall id | id in pa ensures id in pb && pb[id] == pa[id] {
      ResolvedPathIsChainPath(ctx, a, files, id);
      if id !in ctx.byId { ParentsFirstResolvesAll(ctx, b, files, id, |a|); }
    }
  }
}
